/** What each program commits on a given input stream, and what it can commit at all. */
module Commits {
  import opened Wrappers
  import opened Msgs
  import opened ProgramTypes
  import opened Meaning
  import opened Conversions
  import opened Programs
  import opened Streams

  /* update-client */

  /** The stream is a trusted state, a header and an environment, in that order. The program commits o for it exactly
      when o names that state and environment and the header is verified for it. */
  lemma UpdateClientOnStream(lib: Library, c: Codec, stdin: seq<Bytes>, o: UpdateClientOutput)
    ensures UpdateClientMain(lib, c, stdin) == Some(o) <==>
              && |stdin| >= 3
              && c.consensusState.decode(stdin[0]) == Some(o.trustedConsensusState)
              && c.env.decode(stdin[2]) == Some(o.env)
              && exists h :: c.header.decode(stdin[1]) == Some(h) && VerifiedHeader(lib, o, h)
  {
    if |stdin| >= 3 && c.consensusState.decode(stdin[0]).Some? {
      if c.header.decode(stdin[1]).Some? && c.env.decode(stdin[2]).Some? {
        var sol, h := c.consensusState.decode(stdin[0]).value, c.header.decode(stdin[1]).value;
        ConversionsMean(IcsOf(sol), sol);
        if sol.timestamp <= 253402300799 {
          UpdateClientOutputs(lib, sol, IcsOf(sol), h, c.env.decode(stdin[2]).value, o);
        }
      }
    }
  }

  /** What the prover writes arrives as it was, if the state's second has a date; without one the program stops. */
  lemma UpdateClientArrives(lib: Library, c: Codec, sol: ConsensusState, h: Header, env: Env)
    requires FaithfulCodec(c)
    ensures UpdateClientMain(lib, c, [c.consensusState.encode(sol), c.header.encode(h), c.env.encode(env)])
            == if sol.timestamp <= 253402300799 then UpdateClient(lib, IcsOf(sol), h, env) else None
  {
    ConversionsMean(IcsOf(sol), sol);
  }

  /* membership */

  /** A request for this pair, with a Merkle proof of it. */
  predicate RequestAt(lib: Library, c: Codec, root: Bytes32, bs: seq<Bytes>, k: nat, pair: KVPair) {
    && k + 3 <= |bs|
    && c.path.decode(bs[k]) == Some(pair.path)
    && bs[k + 1] == pair.value
    && c.proof.decode(bs[k + 2]).Some?
    && Proves(lib, root, pair.path, pair.value, c.proof.decode(bs[k + 2]).value)
  }

  /** The stream starts with requests for these pairs, three buffers each. */
  predicate RequestsIn(lib: Library, c: Codec, root: Bytes32, bs: seq<Bytes>, pairs: seq<KVPair>) {
    3 * |pairs| <= |bs| && forall i :: 0 <= i < |pairs| ==> RequestAt(lib, c, root, bs, 3 * i, pairs[i])
  }

  /** The first byte of the buffer, whatever follows it. */
  predicate CountIn(b: Bytes, n: nat) {
    b != [] && b[0] == n && n > 0
  }

  lemma RequestsProve(lib: Library, c: Codec, root: Bytes32, bs: seq<Bytes>, n: nat, pairs: seq<KVPair>)
    ensures ProveRequests(lib, c, root, bs, n) == Some(pairs) <==> |pairs| == n && RequestsIn(lib, c, root, bs, pairs)
  {
    if ParseItems(c, bs, n).Some? {
      var (items, left) := ParseItems(c, bs, n).value;
      ParsedItems(c, bs, n, items, left);
      MembershipOutputs(lib, root, items);
      if |pairs| == n && RequestsIn(lib, c, root, bs, pairs) {
        forall i | 0 <= i < n
          ensures items[i].path == pairs[i].path && items[i].value == pairs[i].value
          ensures Proves(lib, root, items[i].path, items[i].value, items[i].proof)
        {
          assert ItemAt(c, bs, 3 * i, items[i]) && RequestAt(lib, c, root, bs, 3 * i, pairs[i]);
        }
        assert PairsOf(items) == pairs;
      }
      if ProveRequests(lib, c, root, bs, n) == Some(pairs) {
        forall i | 0 <= i < n
          ensures RequestAt(lib, c, root, bs, 3 * i, pairs[i])
        {
          assert ItemAt(c, bs, 3 * i, items[i]) && items[i] in items;
        }
      }
    } else if |pairs| == n && RequestsIn(lib, c, root, bs, pairs) {
      var items := seq(n, i requires 0 <= i < n =>
        assert RequestAt(lib, c, root, bs, 3 * i, pairs[i]);
        Item(pairs[i].path, pairs[i].value, c.proof.decode(bs[3 * i + 2]).value));
      forall i | 0 <= i < n
        ensures ItemAt(c, bs, 3 * i, items[i])
      {
        assert RequestAt(lib, c, root, bs, 3 * i, pairs[i]);
      }
      ParsedItems(c, bs, n, items, bs[3 * n..]);
    }
  }

  /** The stream is a root, a count in one byte, and that many requests. The program commits o for it exactly when o
      has that root and the pairs of the requests, in order, and each request proves its pair under the root. */
  lemma MembershipOnStream(lib: Library, c: Codec, stdin: seq<Bytes>, o: MembershipOutput)
    ensures MembershipMain(lib, c, stdin) == Some(o) <==>
              && |stdin| >= 2
              && stdin[0] == o.commitmentRoot
              && CountIn(stdin[1], |o.kvPairs|)
              && RequestsIn(lib, c, o.commitmentRoot, stdin[2..], o.kvPairs)
  {
    if |stdin| >= 2 && |stdin[0]| == 32 && ParseCount(stdin[1]).Some? {
      RequestsProve(lib, c, stdin[0], stdin[2..], ParseCount(stdin[1]).value, o.kvPairs);
    }
  }

  lemma {:induction false} ItemsProvePairs(lib: Library, root: Bytes32, items: seq<Item>, pairs: seq<KVPair>)
    requires ProvePairs(lib, root, items) == Some(pairs) && 1 <= |items| <= 255
    ensures ProvenPairs(lib, root, pairs)
  {
    MembershipOutputs(lib, root, items);
    forall pair | pair in pairs
      ensures Proven(lib, root, pair.path, pair.value)
    {
      var i :| 0 <= i < |pairs| && pairs[i] == pair;
      assert items[i] in items && Proves(lib, root, pair.path, pair.value, items[i].proof);
    }
  }

  /** For proven pairs there are items that prove them. */
  lemma {:induction false} PairsHaveItems(lib: Library, root: Bytes32, pairs: seq<KVPair>) returns (items: seq<Item>)
    requires forall pair :: pair in pairs ==> Proven(lib, root, pair.path, pair.value)
    ensures |items| == |pairs| && ProvePairs(lib, root, items) == Some(pairs)
  {
    if pairs == [] {
      items := [];
    } else {
      var pair := pairs[0];
      assert Proven(lib, root, pair.path, pair.value);
      var proof :| Proves(lib, root, pair.path, pair.value, proof);
      var rest := PairsHaveItems(lib, root, pairs[1..]);
      items := [Item(pair.path, pair.value, proof)] + rest;
      assert items[1..] == rest && [pair] + pairs[1..] == pairs;
    }
  }

  lemma MembershipCommitsProven(lib: Library, c: Codec, stdin: seq<Bytes>, o: MembershipOutput)
    requires MembershipMain(lib, c, stdin) == Some(o)
    ensures ProvenPairs(lib, o.commitmentRoot, o.kvPairs)
  {
    var input := ParseMembership(c, stdin).value.0;
    ParsedCount(c, stdin[2..], ParseCount(stdin[1]).value);
    ItemsProvePairs(lib, input.appHash, input.items, o.kvPairs);
  }

  /** The membership program can commit exactly the outputs of 1 to 255 proven pairs. */
  lemma MembershipCommittable(lib: Library, c: Codec, o: MembershipOutput)
    requires FaithfulCodec(c)
    ensures (exists stdin :: MembershipMain(lib, c, stdin) == Some(o)) <==>
              ProvenPairs(lib, o.commitmentRoot, o.kvPairs)
  {
    if stdin :| MembershipMain(lib, c, stdin) == Some(o) {
      MembershipCommitsProven(lib, c, stdin, o);
    }
    if ProvenPairs(lib, o.commitmentRoot, o.kvPairs) {
      var items := PairsHaveItems(lib, o.commitmentRoot, o.kvPairs);
      MembershipRoundTrip(c, o.commitmentRoot, items);
      var stdin := FrameMembership(c, o.commitmentRoot, items).value;
      assert MembershipMain(lib, c, stdin) == Some(o);
    }
  }

  /* uc-and-membership */

  lemma UcAndMembershipCommitsProven(lib: Library, c: Codec, stdin: seq<Bytes>, o: UcAndMembershipOutput)
    returns (h: Header)
    requires UcAndMembershipMain(lib, c, stdin) == Some(o)
    ensures VerifiedHeader(lib, o.updateClientOutput, h)
    ensures ProvenPairs(lib, o.updateClientOutput.newConsensusState.root, o.kvPairs)
  {
    var input := ParseCombined(c, stdin).value.0;
    h := input.header;
    UpdateClientOutputs(lib, input.trusted, FromSol(input.trusted).value, h, input.env, o.updateClientOutput);
    ParsedCount(c, stdin[4..], ParseCount(stdin[3]).value);
    ItemsProvePairs(lib, h.appHash, input.items, o.kvPairs);
  }

  /** The combined program can commit exactly the outputs with a verified header behind the update and 1 to 255
      pairs proven under the root of the new state. */
  lemma UcAndMembershipCommittable(lib: Library, c: Codec, o: UcAndMembershipOutput)
    requires FaithfulCodec(c)
    ensures (exists stdin :: UcAndMembershipMain(lib, c, stdin) == Some(o)) <==>
              && (exists h :: VerifiedHeader(lib, o.updateClientOutput, h))
              && ProvenPairs(lib, o.updateClientOutput.newConsensusState.root, o.kvPairs)
  {
    var u := o.updateClientOutput;
    if stdin :| UcAndMembershipMain(lib, c, stdin) == Some(o) {
      var h := UcAndMembershipCommitsProven(lib, c, stdin, o);
    }
    if ProvenPairs(lib, u.newConsensusState.root, o.kvPairs) {
      if h :| VerifiedHeader(lib, u, h) {
        var items := PairsHaveItems(lib, u.newConsensusState.root, o.kvPairs);
        CombinedRoundTrip(c, u.trustedConsensusState, h, u.env, items);
        var stdin := FrameCombined(c, u.trustedConsensusState, h, u.env, items).value;
        ConversionsMean(IcsOf(u.trustedConsensusState), u.trustedConsensusState);
        UpdateClientOutputs(lib, u.trustedConsensusState, FromSol(u.trustedConsensusState).value, h, u.env, u);
        assert UcAndMembershipMain(lib, c, stdin) == Some(o);
      }
    }
  }

  /** The stream is what the update program reads, a count and that many requests. The program commits o for it
      exactly when o has the update's output and the pairs of the requests, each proven under the new root. */
  lemma UcAndMembershipOnStream(lib: Library, c: Codec, stdin: seq<Bytes>, o: UcAndMembershipOutput)
    ensures UcAndMembershipMain(lib, c, stdin) == Some(o) <==>
              && |stdin| >= 4
              && UpdateClientMain(lib, c, stdin[..3]) == Some(o.updateClientOutput)
              && CountIn(stdin[3], |o.kvPairs|)
              && RequestsIn(lib, c, o.updateClientOutput.newConsensusState.root, stdin[4..], o.kvPairs)
  {
    if |stdin| >= 4 && ParseCount(stdin[3]).Some? && c.header.decode(stdin[1]).Some? {
      var h := c.header.decode(stdin[1]).value;
      if |h.appHash| == 32 {
        RequestsProve(lib, c, h.appHash, stdin[4..], ParseCount(stdin[3]).value, o.kvPairs);
      }
    }
  }

  /* misbehaviour */

  /** The stream is an environment, evidence and the trusted states of its two headers, in that order. The program
      commits o for it exactly when o names that environment and those states and the evidence is behind it. */
  lemma MisbehaviourOnStream(lib: Library, c: Codec, stdin: seq<Bytes>, o: MisbehaviourOutput)
    ensures MisbehaviourMain(lib, c, stdin) == Some(o) <==>
              && |stdin| >= 4
              && c.env.decode(stdin[0]) == Some(o.env)
              && c.consensusState.decode(stdin[2]) == Some(o.trustedConsensusState1)
              && c.consensusState.decode(stdin[3]) == Some(o.trustedConsensusState2)
              && exists e, used1, used2 ::
                   c.evidence.decode(stdin[1]) == Some(e) && MisbehaviourBehind(lib, o, e, used1, used2)
  {
    if |stdin| >= 4 && c.consensusState.decode(stdin[2]).Some? && c.consensusState.decode(stdin[3]).Some? {
      if c.evidence.decode(stdin[1]).Some? && c.env.decode(stdin[0]).Some? {
        var sol1, sol2 := c.consensusState.decode(stdin[2]).value, c.consensusState.decode(stdin[3]).value;
        ConversionsMean(IcsOf(sol1), sol1);
        ConversionsMean(IcsOf(sol2), sol2);
        if sol1.timestamp <= 253402300799 && sol2.timestamp <= 253402300799 {
          MisbehaviourOutputs(
            lib, c.env.decode(stdin[0]).value, c.evidence.decode(stdin[1]).value, sol1, sol2, o);
        }
      }
    }
  }

  /** What the prover writes arrives as it was, if both seconds have a date; without one the program stops. */
  lemma MisbehaviourArrives(c: Codec, env: Env, e: Evidence, sol1: ConsensusState, sol2: ConsensusState)
    requires FaithfulCodec(c)
    ensures ParseMisbehaviour(
              c,
              [c.env.encode(env), c.evidence.encode(e), c.consensusState.encode(sol1), c.consensusState.encode(sol2)])
            == if sol1.timestamp <= 253402300799 && sol2.timestamp <= 253402300799
               then Some(MisbehaviourInput(env, e, IcsOf(sol1), IcsOf(sol2))) else None
  {
    ConversionsMean(IcsOf(sol1), sol1);
    ConversionsMean(IcsOf(sol2), sol2);
  }

  /** What an input of the misbehaviour program has to do with the output committed for it. */
  lemma MisbehaviourInputOf(lib: Library, c: Codec, stdin: seq<Bytes>, o: MisbehaviourOutput)
    returns (used1: IcsConsensusState, used2: IcsConsensusState)
    requires MisbehaviourMain(lib, c, stdin) == Some(o)
    ensures var input := ParseMisbehaviour(c, stdin).value;
            && input.env == o.env
            && input.trusted1 == IcsOf(o.trustedConsensusState1)
            && input.trusted2 == IcsOf(o.trustedConsensusState2)
            && MisbehaviourBehind(lib, o, input.evidence, used1, used2)
  {
    var input := ParseMisbehaviour(c, stdin).value;
    var e := input.evidence;
    ConversionsMean(input.trusted1, c.consensusState.decode(stdin[2]).value);
    ConversionsMean(input.trusted2, c.consensusState.decode(stdin[3]).value);
    CollapsedMap(e, input.trusted1, input.trusted2);
    NarrowWiden(e.header1.trustedHeight, o.trustedHeight1);
    NarrowWiden(e.header2.trustedHeight, o.trustedHeight2);
    var states := TrustedStates(e, input.trusted1, input.trusted2);
    used1, used2 := StateFor(states, e.header1).value, StateFor(states, e.header2).value;
  }

  /** The misbehaviour program can commit exactly the outputs with verified misbehaving headers behind them. */
  lemma MisbehaviourCommittable(lib: Library, c: Codec, o: MisbehaviourOutput)
    requires FaithfulCodec(c)
    ensures (exists stdin :: MisbehaviourMain(lib, c, stdin) == Some(o)) <==>
              exists e, used1, used2 :: MisbehaviourBehind(lib, o, e, used1, used2)
  {
    if stdin :| MisbehaviourMain(lib, c, stdin) == Some(o) {
      var used1, used2 := MisbehaviourInputOf(lib, c, stdin, o);
    }
    if e, used1, used2 :| MisbehaviourBehind(lib, o, e, used1, used2) {
      var stdin := [
        c.env.encode(o.env), c.evidence.encode(e), c.consensusState.encode(o.trustedConsensusState1),
        c.consensusState.encode(o.trustedConsensusState2)];
      MisbehaviourOnStream(lib, c, stdin, o);
    }
  }
}
