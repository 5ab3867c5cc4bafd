/** Ordering a commit's signatures by their validators' power, greatest first. */
module Signatures {
  import opened Wrappers
  import opened Msgs

  datatype Validator = Validator(address: Bytes, power: uint64)

  datatype CommitSig =
    | Absent
    | ForBlock(address: Bytes, signature: Bytes)
    | ForNil(address: Bytes, signature: Bytes)

  type Powers = map<Bytes, uint64>

  /** Collecting the validators into a map: for an address listed twice the later entry counts. */
  function PowersOf(validators: seq<Validator>): Powers {
    if validators == [] then map[]
    else
      var last := validators[|validators| - 1];
      PowersOf(validators[..|validators| - 1])[last.address := last.power]
  }

  function ValidatorAddress(sig: CommitSig): Option<Bytes> {
    match sig
    case Absent => None
    case ForBlock(address, _) => Some(address)
    case ForNil(address, _) => Some(address)
  }

  /** An absent signature and an address outside the validator set count as 0. */
  function Power(powers: Powers, sig: CommitSig): uint64 {
    match ValidatorAddress(sig)
    case Some(address) => if address in powers then powers[address] else 0
    case None => 0
  }

  function TotalPower(powers: Powers, s: seq<CommitSig>): nat {
    if s == [] then 0 else Power(powers, s[0]) + TotalPower(powers, s[1..])
  }

  /* What the powers mean, without the map. */

  /** The last entry with this address. */
  ghost predicate LastEntry(validators: seq<Validator>, address: Bytes, i: int) {
    && 0 <= i < |validators| && validators[i].address == address
    && forall j :: i < j < |validators| ==> validators[j].address != address
  }

  /** The power of an address: that of its last entry, and 0 without an entry. */
  ghost predicate HasPower(validators: seq<Validator>, address: Bytes, w: uint64) {
    if exists v :: v in validators && v.address == address
    then exists i :: LastEntry(validators, address, i) && validators[i].power == w
    else w == 0
  }

  /** What a signature counts: its validator's power, whether it is for the block or for nil; an absent one nothing. */
  ghost predicate Counts(validators: seq<Validator>, sig: CommitSig, w: uint64) {
    match sig
    case Absent => w == 0
    case ForBlock(address, _) => HasPower(validators, address, w)
    case ForNil(address, _) => HasPower(validators, address, w)
  }

  lemma {:induction false} PowersMean(validators: seq<Validator>, address: Bytes)
    ensures address in PowersOf(validators) <==> exists v :: v in validators && v.address == address
    ensures address in PowersOf(validators) ==>
              exists i :: LastEntry(validators, address, i) && validators[i].power == PowersOf(validators)[address]
  {
    if validators != [] {
      var n := |validators| - 1;
      PowersMean(validators[..n], address);
      assert validators == validators[..n] + [validators[n]];
      if validators[n].address == address {
        assert LastEntry(validators, address, n);
      } else if address in PowersOf(validators) {
        var i :| LastEntry(validators[..n], address, i)
              && validators[..n][i].power == PowersOf(validators[..n])[address];
        assert LastEntry(validators, address, i);
      }
    }
  }

  /** Every signature counts one number, and that is its power in the collected map. */
  lemma PowerMeans(validators: seq<Validator>, sig: CommitSig, w: uint64)
    ensures Counts(validators, sig, w) <==> Power(PowersOf(validators), sig) == w
  {
    if !sig.Absent? {
      PowersMean(validators, sig.address);
      if sig.address in PowersOf(validators) {
        var i :| LastEntry(validators, sig.address, i)
              && validators[i].power == PowersOf(validators)[sig.address];
        forall k | LastEntry(validators, sig.address, k)
          ensures k == i
        {
        }
      }
    }
  }

  /* The specification: insert each signature behind all those of at least its power. */

  function Insert(powers: Powers, s: seq<CommitSig>, x: CommitSig): (r: seq<CommitSig>)
    ensures |r| == |s| + 1
  {
    if s == [] || Power(powers, s[|s| - 1]) >= Power(powers, x) then s + [x]
    else Insert(powers, s[..|s| - 1], x) + [s[|s| - 1]]
  }

  function SortDesc(powers: Powers, s: seq<CommitSig>): (r: seq<CommitSig>)
    ensures |r| == |s|
  {
    if s == [] then [] else Insert(powers, SortDesc(powers, s[..|s| - 1]), s[|s| - 1])
  }

  ghost predicate Descending(powers: Powers, s: seq<CommitSig>) {
    forall i, j :: 0 <= i <= j < |s| ==> Power(powers, s[i]) >= Power(powers, s[j])
  }

  /** The signatures of one power, in order. */
  function OfPower(powers: Powers, s: seq<CommitSig>, w: uint64): seq<CommitSig> {
    if s == [] then []
    else
      OfPower(powers, s[..|s| - 1], w) + IfPower(powers, s[|s| - 1], w)
  }

  function IfPower(powers: Powers, x: CommitSig, w: uint64): seq<CommitSig> {
    if Power(powers, x) == w then [x] else []
  }

  /** A stable descending order of s: descending, and signatures of one power stay in their order. */
  ghost predicate StablyOrders(powers: Powers, s: seq<CommitSig>, t: seq<CommitSig>) {
    && Descending(powers, t)
    && SameByPower(powers, t, s)
  }

  lemma {:induction false} InsertAdds(powers: Powers, s: seq<CommitSig>, x: CommitSig)
    ensures multiset(Insert(powers, s, x)) == multiset(s) + multiset{x}
  {
    if s != [] && Power(powers, s[|s| - 1]) < Power(powers, x) {
      InsertAdds(powers, s[..|s| - 1], x);
      assert s == s[..|s| - 1] + [s[|s| - 1]];
    }
  }

  lemma InsertMembers(powers: Powers, s: seq<CommitSig>, x: CommitSig, y: CommitSig)
    requires y in Insert(powers, s, x)
    ensures y in s || y == x
  {
    InsertAdds(powers, s, x);
    assert y in multiset(Insert(powers, s, x));
  }

  lemma {:induction false} InsertDescends(powers: Powers, s: seq<CommitSig>, x: CommitSig)
    requires Descending(powers, s)
    ensures Descending(powers, Insert(powers, s, x))
  {
    if s != [] && Power(powers, s[|s| - 1]) < Power(powers, x) {
      var front, last := s[..|s| - 1], s[|s| - 1];
      InsertDescends(powers, front, x);
      var r := Insert(powers, front, x);
      forall i | 0 <= i < |r|
        ensures Power(powers, r[i]) >= Power(powers, last)
      {
        InsertMembers(powers, front, x, r[i]);
      }
    }
  }

  lemma OfPowerSnoc(powers: Powers, s: seq<CommitSig>, x: CommitSig, w: uint64)
    ensures OfPower(powers, s + [x], w) == OfPower(powers, s, w) + IfPower(powers, x, w)
  {
    assert (s + [x])[..|s|] == s;
  }

  lemma Exchange<T>(a: seq<T>, b: seq<T>, c: seq<T>)
    requires b == [] || c == []
    ensures a + b + c == a + c + b
  {
  }

  /** x takes the same place among those of its power, wherever it is inserted. */
  lemma {:induction false} InsertIsStable(powers: Powers, s: seq<CommitSig>, x: CommitSig, w: uint64)
    ensures OfPower(powers, Insert(powers, s, x), w) == OfPower(powers, s, w) + IfPower(powers, x, w)
  {
    if s == [] || Power(powers, s[|s| - 1]) >= Power(powers, x) {
      OfPowerSnoc(powers, s, x, w);
    } else {
      InsertIsStable(powers, s[..|s| - 1], x, w);
      OfPowerSnoc(powers, Insert(powers, s[..|s| - 1], x), s[|s| - 1], w);
      Exchange(OfPower(powers, s[..|s| - 1], w), IfPower(powers, x, w), IfPower(powers, s[|s| - 1], w));
    }
  }

  /** The sort is a stable descending permutation. */
  lemma {:induction false} SortDescIsStable(powers: Powers, s: seq<CommitSig>)
    ensures multiset(SortDesc(powers, s)) == multiset(s)
    ensures StablyOrders(powers, s, SortDesc(powers, s))
  {
    if s != [] {
      var front, last := s[..|s| - 1], s[|s| - 1];
      var sorted := SortDesc(powers, front);
      SortDescIsStable(powers, front);
      InsertAdds(powers, sorted, last);
      InsertDescends(powers, sorted, last);
      assert s == front + [last];
      forall w: uint64
        ensures OfPower(powers, SortDesc(powers, s), w) == OfPower(powers, s, w)
      {
        InsertIsStable(powers, sorted, last, w);
      }
    }
  }

  lemma {:induction false} OfPowerMember(powers: Powers, s: seq<CommitSig>, w: uint64, x: CommitSig)
    ensures x in OfPower(powers, s, w) <==> x in s && Power(powers, x) == w
  {
    if s != [] {
      OfPowerMember(powers, s[..|s| - 1], w, x);
      assert s == s[..|s| - 1] + [s[|s| - 1]];
    }
  }

  ghost predicate SameByPower(powers: Powers, t: seq<CommitSig>, u: seq<CommitSig>) {
    forall w: uint64 :: OfPower(powers, t, w) == OfPower(powers, u, w)
  }

  lemma SameMembers(powers: Powers, t: seq<CommitSig>, u: seq<CommitSig>, x: CommitSig)
    requires SameByPower(powers, t, u) && x in t
    ensures x in u
  {
    OfPowerMember(powers, t, Power(powers, x), x);
    OfPowerMember(powers, u, Power(powers, x), x);
  }

  lemma SameLast(powers: Powers, t: seq<CommitSig>, u: seq<CommitSig>)
    requires Descending(powers, t) && Descending(powers, u) && SameByPower(powers, t, u) && t != [] && u != []
    ensures t[|t| - 1] == u[|u| - 1]
    ensures SameByPower(powers, t[..|t| - 1], u[..|u| - 1])
  {
    var t', x := t[..|t| - 1], t[|t| - 1];
    var u', y := u[..|u| - 1], u[|u| - 1];
    SameMembers(powers, t, u, x);
    SameMembers(powers, u, t, y);
    var w := Power(powers, x);
    assert Power(powers, y) == w;
    var a, b := OfPower(powers, t', w), OfPower(powers, u', w);
    assert a + [x] == OfPower(powers, t, w) == OfPower(powers, u, w) == b + [y];
    assert (a + [x])[|a|] == x && (b + [y])[|b|] == y;
    assert a == (a + [x])[..|a|] == (b + [y])[..|b|] == b;
    forall v: uint64
      ensures OfPower(powers, t', v) == OfPower(powers, u', v)
    {
      if v == w {
        assert a == b;
      } else {
        var c, e := OfPower(powers, t', v), OfPower(powers, u', v);
        assert c + [] == OfPower(powers, t, v) == OfPower(powers, u, v) == e + [];
        assert c == c + [] && e == e + [];
      }
    }
  }

  /** Any two stable descending orders are one: whatever sorts stably computes this. */
  lemma {:induction false} StableOrderIsUnique(powers: Powers, t: seq<CommitSig>, u: seq<CommitSig>)
    requires Descending(powers, t) && Descending(powers, u) && SameByPower(powers, t, u)
    ensures t == u
    decreases |t|
  {
    if t == [] {
      if u != [] {
        SameMembers(powers, u, t, u[0]);
      }
    } else if u == [] {
      SameMembers(powers, t, u, t[0]);
    } else {
      SameLast(powers, t, u);
      StableOrderIsUnique(powers, t[..|t| - 1], u[..|u| - 1]);
      assert t == t[..|t| - 1] + [t[|t| - 1]] && u == u[..|u| - 1] + [u[|u| - 1]];
    }
  }

  lemma SortDescIsTheStableSort(powers: Powers, s: seq<CommitSig>, t: seq<CommitSig>)
    ensures StablyOrders(powers, s, t) <==> t == SortDesc(powers, s)
  {
    SortDescIsStable(powers, s);
    if StablyOrders(powers, s, t) {
      StableOrderIsUnique(powers, t, SortDesc(powers, s));
    }
  }

  /* Prefixes. */

  lemma {:induction false} TotalWithout(powers: Powers, t: seq<CommitSig>, m: nat)
    requires m < |t|
    ensures TotalPower(powers, t) == Power(powers, t[m]) + TotalPower(powers, t[..m] + t[m + 1..])
  {
    if m == 0 {
      assert t[..0] + t[1..] == t[1..];
    } else {
      TotalWithout(powers, t[1..], m - 1);
      assert t[1..][..m - 1] + t[1..][m..] == (t[..m] + t[m + 1..])[1..];
    }
  }

  lemma CountWithout<T>(t: seq<T>, m: nat, x: T)
    requires m < |t|
    ensures multiset(t)[x] == multiset(t[..m] + t[m + 1..])[x] + if x == t[m] then 1 else 0
  {
    assert t == t[..m] + [t[m]] + t[m + 1..];
  }

  /** Taking the greatest signature, or any one if the selection lacks the greatest, leaves a selection of the rest. */
  lemma TakeOne(u: seq<CommitSig>, t: seq<CommitSig>) returns (m: nat)
    requires multiset(t) <= multiset(u) && t != []
    ensures u != [] && m < |t| && t[m] in u
    ensures multiset(t[..m] + t[m + 1..]) <= multiset(u[1..])
  {
    assert t[0] in multiset(u);
    m := 0;
    if u[0] in t {
      m :| 0 <= m < |t| && t[m] == u[0];
    }
    assert t[m] in multiset(u);
    forall x
      ensures multiset(t[..m] + t[m + 1..])[x] <= multiset(u[1..])[x]
    {
      CountWithout(t, m, x);
      CountWithout(u, 0, x);
      assert u[..0] + u[1..] == u[1..];
      assert x in multiset(t) <==> x in t;
    }
  }

  lemma {:induction false} PrefixIsBest(powers: Powers, u: seq<CommitSig>, t: seq<CommitSig>)
    requires Descending(powers, u) && multiset(t) <= multiset(u)
    ensures |t| <= |u| && TotalPower(powers, t) <= TotalPower(powers, u[..|t|])
    decreases |t|
  {
    if t != [] {
      var m := TakeOne(u, t);
      var rest := t[..m] + t[m + 1..];
      PrefixIsBest(powers, u[1..], rest);
      TotalWithout(powers, t, m);
      assert u[..|t|][1..] == u[1..][..|rest|];
    }
  }

  /** The first k signatures carry at least the power of any k of them; so if some selection reaches a threshold,
      the same number taken from the front reaches it. */
  lemma PrefixOptimal(powers: Powers, s: seq<CommitSig>, selection: seq<CommitSig>, threshold: nat)
    requires multiset(selection) <= multiset(s)
    ensures |selection| <= |s|
    ensures TotalPower(powers, selection) <= TotalPower(powers, SortDesc(powers, s)[..|selection|])
    ensures TotalPower(powers, selection) >= threshold ==>
              TotalPower(powers, SortDesc(powers, s)[..|selection|]) >= threshold
  {
    SortDescIsStable(powers, s);
    PrefixIsBest(powers, SortDesc(powers, s), selection);
  }

  /** No signature counts less than a later one. */
  ghost predicate StrongestFirst(validators: seq<Validator>, s: seq<CommitSig>) {
    forall i, j, v, w | 0 <= i < j < |s| :: Counts(validators, s[i], v) && Counts(validators, s[j], w) ==> v >= w
  }

  lemma DescendingMeans(validators: seq<Validator>, s: seq<CommitSig>)
    ensures Descending(PowersOf(validators), s) <==> StrongestFirst(validators, s)
  {
    forall i, v | 0 <= i < |s|
      ensures Counts(validators, s[i], v) <==> Power(PowersOf(validators), s[i]) == v
    {
      PowerMeans(validators, s[i], v);
    }
    forall i, j | StrongestFirst(validators, s) && 0 <= i < j < |s|
      ensures Power(PowersOf(validators), s[i]) >= Power(PowersOf(validators), s[j])
    {
      assert Counts(validators, s[i], Power(PowersOf(validators), s[i]));
      assert Counts(validators, s[j], Power(PowersOf(validators), s[j]));
    }
  }

  /* The sort in place. */

  method SortSignaturesByValidatorsPowerDesc(signatures: array<CommitSig>, validators: seq<Validator>)
    modifies signatures
    ensures signatures[..] == SortDesc(PowersOf(validators), old(signatures[..]))
    ensures multiset(signatures[..]) == multiset(old(signatures[..]))
    ensures StrongestFirst(validators, signatures[..])
  {
    SortDescIsStable(PowersOf(validators), signatures[..]);
    SortBy(signatures, PowersOf(validators));
    DescendingMeans(validators, signatures[..]);
  }

  method SortBy(signatures: array<CommitSig>, powers: Powers)
    modifies signatures
    ensures signatures[..] == SortDesc(powers, old(signatures[..]))
  {
    ghost var s := signatures[..];
    for i := 0 to signatures.Length
      invariant signatures[..] == SortDesc(powers, s[..i]) + s[i..]
    {
      ghost var current := signatures[..];
      MoveUp(signatures, powers, i);
      SortOneMore(powers, s, i, current, signatures[..]);
    }
    assert s[..|s|] == s;
  }

  lemma SortOneMore(powers: Powers, s: seq<CommitSig>, i: nat, current: seq<CommitSig>, next: seq<CommitSig>)
    requires i < |s| && current == SortDesc(powers, s[..i]) + s[i..]
    requires next == Insert(powers, current[..i], current[i]) + current[i + 1..]
    ensures next == SortDesc(powers, s[..i + 1]) + s[i + 1..]
  {
    assert current[..i] == SortDesc(powers, s[..i]);
    assert current[i + 1..] == s[i + 1..];
    assert s[..i + 1][..i] == s[..i];
  }

  /** Inserting x, once the signatures from j on are known to be weaker. */
  lemma {:induction false} InsertBefore(powers: Powers, s: seq<CommitSig>, x: CommitSig, j: nat)
    requires j <= |s|
    requires forall k :: j <= k < |s| ==> Power(powers, s[k]) < Power(powers, x)
    requires j > 0 ==> Power(powers, s[j - 1]) >= Power(powers, x)
    ensures Insert(powers, s, x) == s[..j] + [x] + s[j..]
  {
    if j < |s| {
      var n := |s| - 1;
      InsertBefore(powers, s[..n], x, j);
      assert s[..n][..j] == s[..j] && s[..n][j..] + [s[n]] == s[j..];
    } else {
      assert s[..j] + [x] + s[j..] == s + [x];
    }
  }

  /** Taking out element i and putting it back at j, with what was in between moved by one. */
  lemma MovedBack<T>(s: seq<T>, t: seq<T>, i: nat, j: nat)
    requires j <= i < |s| == |t|
    requires forall k :: 0 <= k < j ==> t[k] == s[k]
    requires t[j] == s[i]
    requires forall k :: j <= k < i ==> t[k + 1] == s[k]
    requires forall k :: i < k < |s| ==> t[k] == s[k]
    ensures t == s[..j] + [s[i]] + s[j..i] + s[i + 1..]
  {
    var u := s[..j] + [s[i]] + s[j..i] + s[i + 1..];
    forall k | 0 <= k < |t|
      ensures t[k] == u[k]
    {
      if j < k <= i {
        assert t[(k - 1) + 1] == s[k - 1];
      }
    }
  }

  lemma InsertedBack(powers: Powers, s: seq<CommitSig>, i: nat, j: nat)
    requires j <= i < |s|
    requires forall k :: j <= k < i ==> Power(powers, s[k]) < Power(powers, s[i])
    requires j > 0 ==> Power(powers, s[j - 1]) >= Power(powers, s[i])
    ensures Insert(powers, s[..i], s[i]) == s[..j] + [s[i]] + s[j..i]
  {
    InsertBefore(powers, s[..i], s[i], j);
    assert s[..i][..j] == s[..j] && s[..i][j..] == s[j..i];
  }

  method MoveUp(a: array<CommitSig>, powers: Powers, i: nat)
    requires i < a.Length
    modifies a
    ensures a[..] == Insert(powers, old(a[..])[..i], old(a[..])[i]) + old(a[..])[i + 1..]
  {
    ghost var s := a[..];
    var x := a[i];
    var j := i;
    while j > 0 && Power(powers, a[j - 1]) < Power(powers, x)
      invariant 0 <= j <= i
      invariant forall k :: 0 <= k < j ==> a[k] == s[k]
      invariant forall k :: j <= k < i ==> a[k + 1] == s[k] && Power(powers, s[k]) < Power(powers, x)
      invariant forall k :: i < k < a.Length ==> a[k] == s[k]
    {
      assert a[j - 1] == s[j - 1];
      a[j] := a[j - 1];
      j := j - 1;
    }
    a[j] := x;
    MovedBack(s, a[..], i, j);
    InsertedBack(powers, s, i, j);
  }
}
