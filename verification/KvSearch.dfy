/** Finding a key-value pair in a proof's output, as both membership handlers do. */
module KvSearch {
  import opened Wrappers
  import opened Msgs

  /** The value of the first pair with this path. */
  function FirstValue(pairs: seq<KVPair>, path: Path): Option<Bytes> {
    if pairs == [] then None
    else if pairs[0].path == path then Some(pairs[0].value)
    else FirstValue(pairs[1..], path)
  }

  /** The verdict of the search: the first pair with the path decides. When there is none, a list of 256 pairs
      runs the uint8 counter past its range before the list ends. */
  function Search(pairs: seq<KVPair>, path: Path, value: Bytes): Check<Error> {
    match FirstValue(pairs, path)
    case Some(v) => Need(v == value, MembershipProofValueMismatch)
    case None => Fail(if |pairs| < 256 then MembershipProofKeyNotFound else CounterOverflow)
  }

  lemma {:induction false} FirstValueIsFirst(pairs: seq<KVPair>, path: Path)
    ensures FirstValue(pairs, path).None? <==> forall j :: 0 <= j < |pairs| ==> pairs[j].path != path
    ensures forall v :: FirstValue(pairs, path) == Some(v) <==>
              exists i :: 0 <= i < |pairs| && pairs[i] == KVPair(path, v)
                          && forall j :: 0 <= j < i ==> pairs[j].path != path
  {
    if pairs == [] {
    } else if pairs[0].path == path {
      forall v | FirstValue(pairs, path) == Some(v)
        ensures exists i :: 0 <= i < |pairs| && pairs[i] == KVPair(path, v)
                            && forall j :: 0 <= j < i ==> pairs[j].path != path
      {
        assert pairs[0] == KVPair(path, v);
      }
    } else {
      var rest := pairs[1..];
      FirstValueIsFirst(rest, path);
      assert forall j :: 0 < j < |pairs| ==> pairs[j] == rest[j - 1];
      assert forall j :: 0 <= j < |rest| ==> rest[j] == pairs[j + 1];
      forall v
        ensures FirstValue(pairs, path) == Some(v) <==>
                  exists i :: 0 <= i < |pairs| && pairs[i] == KVPair(path, v)
                              && forall j :: 0 <= j < i ==> pairs[j].path != path
      {
        if FirstValue(rest, path) == Some(v) {
          var i :| 0 <= i < |rest| && rest[i] == KVPair(path, v) && forall j :: 0 <= j < i ==> rest[j].path != path;
          assert pairs[i + 1] == KVPair(path, v);
        }
        if i :| 0 <= i < |pairs| && pairs[i] == KVPair(path, v) && forall j :: 0 <= j < i ==> pairs[j].path != path {
          assert rest[i - 1] == KVPair(path, v);
        }
      }
    }
  }

  /** Skipping pairs with other paths does not change what is found. */
  lemma {:induction false} FirstValueSkip(pairs: seq<KVPair>, path: Path, n: nat)
    requires n <= |pairs|
    requires forall j :: 0 <= j < n ==> pairs[j].path != path
    ensures FirstValue(pairs, path) == FirstValue(pairs[n..], path)
  {
    if n == 0 {
      assert pairs[0..] == pairs;
    } else {
      FirstValueSkip(pairs[1..], path, n - 1);
      assert pairs[1..][n - 1..] == pairs[n..];
    }
  }

  /** Paths.equal: lengths first, then element by element. */
  method PathsEqual(a: Path, b: Path) returns (r: bool)
    ensures r <==> a == b
  {
    if |a| != |b| {
      return false;
    }
    for i := 0 to |a|
      invariant a[..i] == b[..i]
    {
      if |a[i]| != |b[i]| {
        return false;
      }
      if a[i] != b[i] {
        return false;
      }
    }
    return true;
  }

  /** The loop of both handlers, with its uint8 counter. */
  method SearchPairs(pairs: seq<KVPair>, path: Path, value: Bytes) returns (r: Check<Error>)
    requires 1 <= |pairs| <= 256
    ensures r == Search(pairs, path, value)
    ensures r.Pass? <==> exists i :: 0 <= i < |pairs| && pairs[i] == KVPair(path, value)
                                     && forall j :: 0 <= j < i ==> pairs[j].path != path
    ensures r == Fail(CounterOverflow) <==> |pairs| == 256 && forall j :: 0 <= j < |pairs| ==> pairs[j].path != path
  {
    FirstValueIsFirst(pairs, path);
    var found := false;
    var i: uint8 := 0;
    while i < |pairs|
      invariant i <= |pairs| && !found
      invariant forall j :: 0 <= j < i ==> pairs[j].path != path
    {
      var same := PathsEqual(pairs[i].path, path);
      if same {
        FirstValueSkip(pairs, path, i);
        if pairs[i].value != value {
          return Fail(MembershipProofValueMismatch);
        }
        found := true;
        break;
      }
      if i == 255 {
        return Fail(CounterOverflow);
      }
      i := i + 1;
    }
    if !found {
      return Fail(MembershipProofKeyNotFound);
    }
    return Pass;
  }
}
