/** The input stream between prover and program: buffers written one by one and read back in order, with the
    number of items in one byte. */
module Streams {
  import opened Wrappers
  import opened Msgs
  import opened ProgramTypes
  import opened Conversions
  import opened Programs

  class SP1Stdin {
    var buffers: seq<Bytes>

    constructor ()
      ensures buffers == []
    {
      buffers := [];
    }

    method WriteVec(b: Bytes)
      modifies this
      ensures buffers == old(buffers) + [b]
    {
      buffers := buffers + [b];
    }

    /** Reading past the end has no value: the program panics. */
    method ReadVec() returns (r: Option<Bytes>)
      modifies this
      ensures if old(buffers) == [] then r == None && buffers == []
              else r == Some(old(buffers)[0]) && buffers == old(buffers)[1..]
    {
      if buffers == [] {
        return None;
      }
      r := Some(buffers[0]);
      buffers := buffers[1..];
    }
  }

  /* What is written. */

  function FrameItem(c: Codec, item: Item): (bs: seq<Bytes>) {
    [c.path.encode(item.path), item.value, c.proof.encode(item.proof)]
  }

  function FrameItems(c: Codec, items: seq<Item>): seq<Bytes> {
    if items == [] then [] else FrameItem(c, items[0]) + FrameItems(c, items[1..])
  }

  function FrameMembership(c: Codec, root: Bytes, items: seq<Item>): Option<seq<Bytes>> {
    if 1 <= |items| <= 255 then Some([root, [|items|]] + FrameItems(c, items)) else None
  }

  function FrameCombined(c: Codec, trusted: ConsensusState, header: Header, env: Env, items: seq<Item>)
    : Option<seq<Bytes>>
  {
    if 1 <= |items| <= 255
    then Some([c.consensusState.encode(trusted), c.header.encode(header), c.env.encode(env), [|items|]]
              + FrameItems(c, items))
    else None
  }

  /* What is read: the value and the buffers left over. */

  function ParseCount(b: Bytes): Option<uint8> {
    if b == [] || b[0] == 0 then None else Some(b[0])
  }

  function ParseItems(c: Codec, bs: seq<Bytes>, n: nat): Option<(seq<Item>, seq<Bytes>)> {
    if n == 0 then Some(([], bs))
    else if |bs| < 3 then None
    else
      var path :- c.path.decode(bs[0]);
      var proof :- c.proof.decode(bs[2]);
      var (items, left) :- ParseItems(c, bs[3..], n - 1);
      Some(([Item(path, bs[1], proof)] + items, left))
  }

  datatype MembershipInput = MembershipInput(appHash: Bytes32, items: seq<Item>)

  function ParseMembership(c: Codec, bs: seq<Bytes>): Option<(MembershipInput, seq<Bytes>)> {
    if |bs| < 2 || |bs[0]| != 32 then None
    else
      var count :- ParseCount(bs[1]);
      var (items, left) :- ParseItems(c, bs[2..], count);
      Some((MembershipInput(bs[0], items), left))
  }

  datatype CombinedInput = CombinedInput(trusted: ConsensusState, header: Header, env: Env, items: seq<Item>)

  function ParseCombined(c: Codec, bs: seq<Bytes>): Option<(CombinedInput, seq<Bytes>)> {
    if |bs| < 4 then None
    else
      var count :- ParseCount(bs[3]);
      var trusted :- c.consensusState.decode(bs[0]);
      var header :- c.header.decode(bs[1]);
      var env :- c.env.decode(bs[2]);
      var (items, left) :- ParseItems(c, bs[4..], count);
      Some((CombinedInput(trusted, header, env, items), left))
  }

  /* The programs' entry points. */

  function MembershipMain(lib: Library, c: Codec, stdin: seq<Bytes>): Option<MembershipOutput> {
    var (input, _) :- ParseMembership(c, stdin);
    Membership(lib, input.appHash, input.items)
  }

  function UcAndMembershipMain(lib: Library, c: Codec, stdin: seq<Bytes>): Option<UcAndMembershipOutput> {
    var (input, _) :- ParseCombined(c, stdin);
    var trusted :- FromSol(input.trusted);
    UpdateClientAndMembership(lib, trusted, input.header, input.env, input.items)
  }

  /* Writer and reader agree. */

  lemma {:induction false} ItemsRoundTrip(c: Codec, items: seq<Item>, rest: seq<Bytes>)
    requires FaithfulCodec(c)
    ensures ParseItems(c, FrameItems(c, items) + rest, |items|) == Some((items, rest))
  {
    if items == [] {
      assert FrameItems(c, items) + rest == rest;
    } else {
      var bs := FrameItems(c, items) + rest;
      ItemsRoundTrip(c, items[1..], rest);
      assert bs[3..] == FrameItems(c, items[1..]) + rest;
      assert bs[..3] == FrameItem(c, items[0]);
      assert [items[0]] + items[1..] == items;
    }
  }

  lemma {:induction false} ParsedCount(c: Codec, bs: seq<Bytes>, n: nat)
    requires ParseItems(c, bs, n).Some?
    ensures |ParseItems(c, bs, n).value.0| == n
  {
    if n != 0 {
      ParsedCount(c, bs[3..], n - 1);
    }
  }

  /** Three buffers in a row: a path, a value and a Merkle proof. */
  predicate ItemAt(c: Codec, bs: seq<Bytes>, k: nat, item: Item) {
    && k + 3 <= |bs|
    && c.path.decode(bs[k]) == Some(item.path)
    && bs[k + 1] == item.value
    && c.proof.decode(bs[k + 2]) == Some(item.proof)
  }

  predicate ItemsAt(c: Codec, bs: seq<Bytes>, items: seq<Item>) {
    3 * |items| <= |bs| && forall i :: 0 <= i < |items| ==> ItemAt(c, bs, 3 * i, items[i])
  }

  lemma FirstItemAt(c: Codec, bs: seq<Bytes>, items: seq<Item>)
    requires items != [] && |bs| >= 3
    ensures ItemsAt(c, bs, items) <==> ItemAt(c, bs, 0, items[0]) && ItemsAt(c, bs[3..], items[1..])
  {
    forall i | 0 <= i < |items| - 1
      ensures ItemAt(c, bs[3..], 3 * i, items[1..][i]) <==> ItemAt(c, bs, 3 * (i + 1), items[i + 1])
    {
    }
    if ItemAt(c, bs, 0, items[0]) && ItemsAt(c, bs[3..], items[1..]) {
      forall i | 0 <= i < |items|
        ensures ItemAt(c, bs, 3 * i, items[i])
      {
        assert i > 0 ==> ItemAt(c, bs[3..], 3 * (i - 1), items[1..][i - 1]);
      }
    }
  }

  /** Items are read from every stream that has them in a row, three buffers each, and from no other. */
  lemma {:induction false} ParsedItems(c: Codec, bs: seq<Bytes>, n: nat, items: seq<Item>, left: seq<Bytes>)
    ensures ParseItems(c, bs, n) == Some((items, left)) <==>
              |items| == n && ItemsAt(c, bs, items) && left == bs[3 * n..]
  {
    if n == 0 {
      assert bs[0..] == bs;
    } else if |items| == n && 3 <= |bs| {
      ParsedItems(c, bs[3..], n - 1, items[1..], left);
      FirstItemAt(c, bs, items);
      assert items == [items[0]] + items[1..];
      assert 3 * n <= |bs| ==> bs[3..][3 * (n - 1)..] == bs[3 * n..];
    } else if ParseItems(c, bs, n).Some? {
      ParsedCount(c, bs, n);
    }
  }

  /** Lists of 1 to 255 items, and no others, can be written; with a root of 32 bytes, and no other, the reader
      recovers them in order and leaves no buffer unread. */
  lemma MembershipRoundTrip(c: Codec, root: Bytes, items: seq<Item>)
    requires FaithfulCodec(c)
    ensures FrameMembership(c, root, items).Some? <==> 1 <= |items| <= 255
    ensures FrameMembership(c, root, items).Some? ==>
              ParseMembership(c, FrameMembership(c, root, items).value)
              == if |root| == 32 then Some((MembershipInput(root, items), [])) else None
  {
    if 1 <= |items| <= 255 {
      var bs := FrameMembership(c, root, items).value;
      ItemsRoundTrip(c, items, []);
      assert bs[2..] == FrameItems(c, items) + [];
    }
  }

  lemma CombinedRoundTrip(c: Codec, trusted: ConsensusState, header: Header, env: Env, items: seq<Item>)
    requires FaithfulCodec(c)
    ensures FrameCombined(c, trusted, header, env, items).Some? <==> 1 <= |items| <= 255
    ensures FrameCombined(c, trusted, header, env, items).Some? ==>
              ParseCombined(c, FrameCombined(c, trusted, header, env, items).value)
              == Some((CombinedInput(trusted, header, env, items), []))
  {
    if 1 <= |items| <= 255 {
      var bs := FrameCombined(c, trusted, header, env, items).value;
      ItemsRoundTrip(c, items, []);
      assert bs[4..] == FrameItems(c, items) + [];
    }
  }

  /* The writers. They hand over a stream unless there are no items or more than a byte can count. */

  method WriteItems(c: Codec, stdin: SP1Stdin, items: seq<Item>)
    modifies stdin
    ensures stdin.buffers == old(stdin.buffers) + FrameItems(c, items)
  {
    for i := 0 to |items|
      invariant stdin.buffers + FrameItems(c, items[i..]) == old(stdin.buffers) + FrameItems(c, items)
    {
      assert items[i..][0] == items[i] && items[i..][1..] == items[i + 1..];
      stdin.WriteVec(c.path.encode(items[i].path));
      stdin.WriteVec(items[i].value);
      stdin.WriteVec(c.proof.encode(items[i].proof));
    }
  }

  method WriteMembership(c: Codec, root: Bytes, items: seq<Item>) returns (r: Option<SP1Stdin>)
    ensures r.Some? <==> FrameMembership(c, root, items).Some?
    ensures r.Some? ==> fresh(r.value) && Some(r.value.buffers) == FrameMembership(c, root, items)
  {
    if |items| == 0 || |items| > 255 {
      return None;
    }
    var stdin := new SP1Stdin();
    stdin.WriteVec(root);
    stdin.WriteVec([|items|]);
    assert stdin.buffers == [root, [|items|]];
    WriteItems(c, stdin, items);
    return Some(stdin);
  }

  method WriteCombined(c: Codec, trusted: ConsensusState, header: Header, env: Env, items: seq<Item>)
    returns (r: Option<SP1Stdin>)
    ensures r.Some? <==> FrameCombined(c, trusted, header, env, items).Some?
    ensures r.Some? ==> fresh(r.value) && Some(r.value.buffers) == FrameCombined(c, trusted, header, env, items)
  {
    if |items| == 0 || |items| > 255 {
      return None;
    }
    var stdin := new SP1Stdin();
    stdin.WriteVec(c.consensusState.encode(trusted));
    stdin.WriteVec(c.header.encode(header));
    stdin.WriteVec(c.env.encode(env));
    stdin.WriteVec([|items|]);
    assert stdin.buffers
        == [c.consensusState.encode(trusted), c.header.encode(header), c.env.encode(env), [|items|]];
    WriteItems(c, stdin, items);
    return Some(stdin);
  }

  method WriteUpdateClient(c: Codec, trusted: ConsensusState, header: Header, env: Env) returns (stdin: SP1Stdin)
    ensures fresh(stdin)
    ensures stdin.buffers == [c.consensusState.encode(trusted), c.header.encode(header), c.env.encode(env)]
  {
    stdin := new SP1Stdin();
    stdin.WriteVec(c.consensusState.encode(trusted));
    stdin.WriteVec(c.header.encode(header));
    stdin.WriteVec(c.env.encode(env));
  }

  method WriteMisbehaviour(c: Codec, env: Env, e: Evidence, trusted1: ConsensusState, trusted2: ConsensusState)
    returns (stdin: SP1Stdin)
    ensures fresh(stdin)
    ensures stdin.buffers
            == [c.env.encode(env), c.evidence.encode(e), c.consensusState.encode(trusted1),
                c.consensusState.encode(trusted2)]
  {
    stdin := new SP1Stdin();
    stdin.WriteVec(c.env.encode(env));
    stdin.WriteVec(c.evidence.encode(e));
    stdin.WriteVec(c.consensusState.encode(trusted1));
    stdin.WriteVec(c.consensusState.encode(trusted2));
  }

  /* The readers. */

  /** What parsing the rest of a stream yields once some items are known. */
  function After(items: seq<Item>, parsed: Option<(seq<Item>, seq<Bytes>)>): Option<(seq<Item>, seq<Bytes>)> {
    match parsed
    case None => None
    case Some((more, left)) => Some((items + more, left))
  }

  /** One request: three reads, with the decodings in between. */
  method ReadItem(c: Codec, stdin: SP1Stdin) returns (r: Option<Item>)
    modifies stdin
    ensures var bs := old(stdin.buffers);
            match r
            case Some(item) =>
              && |bs| >= 3 && stdin.buffers == bs[3..]
              && c.path.decode(bs[0]) == Some(item.path) && bs[1] == item.value
              && c.proof.decode(bs[2]) == Some(item.proof)
            case None => |bs| < 3 || c.path.decode(bs[0]) == None || c.proof.decode(bs[2]) == None
  {
    var encodedPath :- stdin.ReadVec();
    var path :- c.path.decode(encodedPath);
    var value :- stdin.ReadVec();
    var encodedProof :- stdin.ReadVec();
    var proof :- c.proof.decode(encodedProof);
    return Some(Item(path, value, proof));
  }

  method ReadItems(c: Codec, stdin: SP1Stdin, count: uint8) returns (r: Option<seq<Item>>)
    modifies stdin
    ensures var parsed := ParseItems(c, old(stdin.buffers), count);
            match r
            case Some(items) => parsed == Some((items, stdin.buffers))
            case None => parsed == None
  {
    ghost var start := stdin.buffers;
    var items := [];
    var i := 0;
    assert forall more: seq<Item> :: items + more == more;
    while i < count
      invariant 0 <= i <= count
      invariant ParseItems(c, start, count) == After(items, ParseItems(c, stdin.buffers, count - i))
    {
      var item :- ReadItem(c, stdin);
      ghost var known := items;
      items := items + [item];
      i := i + 1;
      assert forall more: seq<Item> :: known + ([item] + more) == items + more;
    }
    assert items + [] == items;
    return Some(items);
  }

  method ReadMembership(c: Codec, stdin: SP1Stdin) returns (r: Option<MembershipInput>)
    modifies stdin
    ensures var parsed := ParseMembership(c, old(stdin.buffers));
            match r
            case Some(input) => parsed == Some((input, stdin.buffers))
            case None => parsed == None
  {
    var appHash :- stdin.ReadVec();
    if |appHash| != 32 {
      return None;
    }
    var encodedCount :- stdin.ReadVec();
    var count :- ParseCount(encodedCount);
    var items :- ReadItems(c, stdin, count);
    return Some(MembershipInput(appHash, items));
  }

  method ReadCombined(c: Codec, stdin: SP1Stdin) returns (r: Option<CombinedInput>)
    modifies stdin
    ensures var parsed := ParseCombined(c, old(stdin.buffers));
            match r
            case Some(input) => parsed == Some((input, stdin.buffers))
            case None => parsed == None
  {
    var encoded1 :- stdin.ReadVec();
    var encoded2 :- stdin.ReadVec();
    var encoded3 :- stdin.ReadVec();
    var encodedCount :- stdin.ReadVec();
    var count :- ParseCount(encodedCount);
    var trusted :- c.consensusState.decode(encoded1);
    var header :- c.header.decode(encoded2);
    var env :- c.env.decode(encoded3);
    var items :- ReadItems(c, stdin, count);
    return Some(CombinedInput(trusted, header, env, items));
  }

  /* The programs, which verify each request before they read the next. */

  /** Reading all requests first and then going through them. */
  function ProveRequests(lib: Library, c: Codec, root: Bytes32, bs: seq<Bytes>, n: nat): Option<seq<KVPair>> {
    var (items, _) :- ParseItems(c, bs, n);
    ProvePairs(lib, root, items)
  }

  function Behind<T>(known: seq<T>, rest: Option<seq<T>>): Option<seq<T>> {
    match rest
    case None => None
    case Some(more) => Some(known + more)
  }

  lemma FirstRequest(lib: Library, c: Codec, root: Bytes32, bs: seq<Bytes>, n: nat, item: Item)
    requires n > 0 && |bs| >= 3
    requires c.path.decode(bs[0]) == Some(item.path) && bs[1] == item.value && c.proof.decode(bs[2]) == Some(item.proof)
    ensures ProveRequests(lib, c, root, bs, n)
            == match ProvePair(lib, root, item)
               case None => None
               case Some(pair) => Behind([pair], ProveRequests(lib, c, root, bs[3..], n - 1))
  {
    var parsed := ParseItems(c, bs[3..], n - 1);
    if parsed.Some? {
      assert ([item] + parsed.value.0)[1..] == parsed.value.0;
    }
  }

  method ProveItems(lib: Library, c: Codec, root: Bytes32, stdin: SP1Stdin, count: uint8)
    returns (r: Option<seq<KVPair>>)
    modifies stdin
    ensures r == ProveRequests(lib, c, root, old(stdin.buffers), count)
  {
    ghost var start := stdin.buffers;
    var pairs := [];
    var i := 0;
    assert forall more: seq<KVPair> :: pairs + more == more;
    while i < count
      invariant 0 <= i <= count
      invariant ProveRequests(lib, c, root, start, count)
             == Behind(pairs, ProveRequests(lib, c, root, stdin.buffers, count - i))
    {
      ghost var bs := stdin.buffers;
      var item :- ReadItem(c, stdin);
      FirstRequest(lib, c, root, bs, count - i, item);
      var pair :- ProvePair(lib, root, item);
      ghost var known := pairs;
      pairs := pairs + [pair];
      i := i + 1;
      assert forall more: seq<KVPair> :: known + ([pair] + more) == pairs + more;
    }
    assert pairs + [] == pairs;
    return Some(pairs);
  }

  method UpdateClientProgram(lib: Library, c: Codec, stdin: SP1Stdin) returns (r: Option<UpdateClientOutput>)
    modifies stdin
    ensures r == UpdateClientMain(lib, c, old(stdin.buffers))
  {
    var encoded1 :- stdin.ReadVec();
    var encoded2 :- stdin.ReadVec();
    var encoded3 :- stdin.ReadVec();
    var sol :- c.consensusState.decode(encoded1);
    var trusted :- FromSol(sol);
    var header :- c.header.decode(encoded2);
    var env :- c.env.decode(encoded3);
    r := UpdateClient(lib, trusted, header, env);
  }

  method MisbehaviourProgram(lib: Library, c: Codec, stdin: SP1Stdin) returns (r: Option<MisbehaviourOutput>)
    modifies stdin
    ensures r == MisbehaviourMain(lib, c, old(stdin.buffers))
  {
    var encoded1 :- stdin.ReadVec();
    var encoded2 :- stdin.ReadVec();
    var encoded3 :- stdin.ReadVec();
    var encoded4 :- stdin.ReadVec();
    var env :- c.env.decode(encoded1);
    var e :- c.evidence.decode(encoded2);
    var sol1 :- c.consensusState.decode(encoded3);
    var trusted1 :- FromSol(sol1);
    var sol2 :- c.consensusState.decode(encoded4);
    var trusted2 :- FromSol(sol2);
    r := CheckForMisbehaviour(lib, env, e, trusted1, trusted2);
  }

  method MembershipProgram(lib: Library, c: Codec, stdin: SP1Stdin) returns (r: Option<MembershipOutput>)
    modifies stdin
    ensures r == MembershipMain(lib, c, old(stdin.buffers))
  {
    var appHash :- stdin.ReadVec();
    if |appHash| != 32 {
      return None;
    }
    var encodedCount :- stdin.ReadVec();
    var count :- ParseCount(encodedCount);
    var pairs :- ProveItems(lib, c, appHash, stdin, count);
    return Some(MembershipOutput(appHash, pairs));
  }

  /** The update comes before the first request is read. */
  method UcAndMembershipProgram(lib: Library, c: Codec, stdin: SP1Stdin) returns (r: Option<UcAndMembershipOutput>)
    modifies stdin
    ensures r == UcAndMembershipMain(lib, c, old(stdin.buffers))
  {
    var encoded1 :- stdin.ReadVec();
    var encoded2 :- stdin.ReadVec();
    var encoded3 :- stdin.ReadVec();
    var encodedCount :- stdin.ReadVec();
    var count :- ParseCount(encodedCount);
    var sol :- c.consensusState.decode(encoded1);
    var trusted :- FromSol(sol);
    var header :- c.header.decode(encoded2);
    var env :- c.env.decode(encoded3);
    if |header.appHash| != 32 {
      return None;
    }
    var update :- UpdateClient(lib, trusted, header, env);
    var pairs :- ProveItems(lib, c, header.appHash, stdin, count);
    return Some(UcAndMembershipOutput(update, pairs));
  }

  /* Prover to program. */

  /** Prover to program: every list the prover can write arrives as it was, with nothing left unread. */
  method TransmitMembership(c: Codec, root: Bytes32, items: seq<Item>)
    returns (r: Option<MembershipInput>, unread: nat)
    requires FaithfulCodec(c)
    ensures r == if 1 <= |items| <= 255 then Some(MembershipInput(root, items)) else None
    ensures unread == 0
  {
    MembershipRoundTrip(c, root, items);
    var stdin := WriteMembership(c, root, items);
    if stdin.None? {
      return None, 0;
    }
    r := ReadMembership(c, stdin.value);
    unread := |stdin.value.buffers|;
  }

  method TransmitCombined(c: Codec, trusted: ConsensusState, header: Header, env: Env, items: seq<Item>)
    returns (r: Option<CombinedInput>, unread: nat)
    requires FaithfulCodec(c)
    ensures r == if 1 <= |items| <= 255 then Some(CombinedInput(trusted, header, env, items)) else None
    ensures unread == 0
  {
    CombinedRoundTrip(c, trusted, header, env, items);
    var stdin := WriteCombined(c, trusted, header, env, items);
    if stdin.None? {
      return None, 0;
    }
    r := ReadCombined(c, stdin.value);
    unread := |stdin.value.buffers|;
  }
}
