/** The four zkVM programs: from the buffers they read to the output they commit. A panic commits nothing. */
module Programs {
  import opened Wrappers
  import opened Msgs
  import opened ProgramTypes
  import opened Meaning
  import opened Conversions

  /* update-client */

  function StateOf(h: Header): IcsConsensusState {
    IcsConsensusState(h.time, h.appHash, h.nextValidatorsHash)
  }

  function OptionsOf(env: Env): Options {
    Options(env.trustThreshold, env.trustingPeriod * NANOS, 0)
  }

  function UpdateClient(lib: Library, trusted: IcsConsensusState, header: Header, env: Env)
    : Option<UpdateClientOutput>
  {
    if !lib.parsesChainId(env.chainId) || !lib.validThreshold(env.trustThreshold)
       || !lib.verifyHeader(trusted, header, env.chainId, OptionsOf(env), HostTimestamp(env))
    then None
    else
      var trustedHeight :- Narrow(header.trustedHeight);
      var newHeight :- Narrow(header.height);
      var trustedState :- ToSol(trusted);
      var newState :- ToSol(StateOf(header));
      Some(UpdateClientOutput(trustedState, newState, env, trustedHeight, newHeight))
  }

  function UpdateClientMain(lib: Library, c: Codec, stdin: seq<Bytes>): Option<UpdateClientOutput> {
    if |stdin| < 3 then None
    else
      var sol :- c.consensusState.decode(stdin[0]);
      var trusted :- FromSol(sol);
      var header :- c.header.decode(stdin[1]);
      var env :- c.env.decode(stdin[2]);
      UpdateClient(lib, trusted, header, env)
  }

  /* membership */

  /** An empty value stands for absence. */
  predicate Verifies(lib: Library, root: Bytes32, item: Item) {
    if item.value == [] then lib.verifyNonMembership(item.proof, root, item.path)
    else lib.verifyMembership(item.proof, root, item.path, item.value)
  }

  /** One request: a verified item gives its pair, any other stops the program. */
  function ProvePair(lib: Library, root: Bytes32, item: Item): Option<KVPair> {
    if Verifies(lib, root, item) then Some(KVPair(item.path, item.value)) else None
  }

  /** The requests one by one, up to the first that stops the program. */
  function ProvePairs(lib: Library, root: Bytes32, items: seq<Item>): Option<seq<KVPair>> {
    if items == [] then Some([])
    else
      var pair :- ProvePair(lib, root, items[0]);
      var pairs :- ProvePairs(lib, root, items[1..]);
      Some([pair] + pairs)
  }

  function Membership(lib: Library, appHash: Bytes32, items: seq<Item>): Option<MembershipOutput> {
    var pairs :- ProvePairs(lib, appHash, items);
    Some(MembershipOutput(appHash, pairs))
  }

  /* uc-and-membership */

  function UpdateClientAndMembership(
    lib: Library, trusted: IcsConsensusState, header: Header, env: Env, items: seq<Item>)
    : Option<UcAndMembershipOutput>
  {
    if |header.appHash| != 32 then None
    else
      var update :- UpdateClient(lib, trusted, header, env);
      var membership :- Membership(lib, header.appHash, items);
      Some(UcAndMembershipOutput(update, membership.kvPairs))
  }

  /* misbehaviour */

  /** The trusted states by revision height. When both heights coincide only the second entry is left. */
  function TrustedStates(e: Evidence, trusted1: IcsConsensusState, trusted2: IcsConsensusState)
    : map<uint64, IcsConsensusState>
  {
    map[e.header1.trustedHeight.revisionHeight := trusted1, e.header2.trustedHeight.revisionHeight := trusted2]
  }

  /** The state that the library gets to see for a header. */
  function StateFor(states: map<uint64, IcsConsensusState>, h: Header): Option<IcsConsensusState> {
    if h.trustedHeight.revisionHeight in states then Some(states[h.trustedHeight.revisionHeight]) else None
  }

  function CheckForMisbehaviour(
    lib: Library, env: Env, e: Evidence, trusted1: IcsConsensusState, trusted2: IcsConsensusState)
    : Option<MisbehaviourOutput>
  {
    var states := TrustedStates(e, trusted1, trusted2);
    var used1 :- StateFor(states, e.header1);
    var used2 :- StateFor(states, e.header2);
    if env.chainId != e.header1.chainId
       || !lib.parsesChainId(env.chainId) || !lib.validThreshold(env.trustThreshold)
       || !lib.verifyMisbehaviour(used1, used2, e, env.chainId, OptionsOf(env), HostTimestamp(env))
       || !lib.isMisbehaviour(e.header1, e.header2)
    then None
    else
      var height1 :- Narrow(e.header1.trustedHeight);
      var height2 :- Narrow(e.header2.trustedHeight);
      var state1 :- ToSol(trusted1);
      var state2 :- ToSol(trusted2);
      Some(MisbehaviourOutput(env, height1, height2, state1, state2))
  }

  datatype MisbehaviourInput = MisbehaviourInput(
    env: Env, evidence: Evidence, trusted1: IcsConsensusState, trusted2: IcsConsensusState)

  function ParseMisbehaviour(c: Codec, stdin: seq<Bytes>): Option<MisbehaviourInput> {
    if |stdin| < 4 then None
    else
      var env :- c.env.decode(stdin[0]);
      var e :- c.evidence.decode(stdin[1]);
      var sol1 :- c.consensusState.decode(stdin[2]);
      var sol2 :- c.consensusState.decode(stdin[3]);
      var trusted1 :- FromSol(sol1);
      var trusted2 :- FromSol(sol2);
      Some(MisbehaviourInput(env, e, trusted1, trusted2))
  }

  function MisbehaviourMain(lib: Library, c: Codec, stdin: seq<Bytes>): Option<MisbehaviourOutput> {
    var input :- ParseMisbehaviour(c, stdin);
    CheckForMisbehaviour(lib, input.env, input.evidence, input.trusted1, input.trusted2)
  }

  /* What the outputs mean. */

  /** The program outputs o exactly when o carries its inputs and the library verified the header for it. */
  lemma UpdateClientOutputs(
    lib: Library, sol: ConsensusState, trusted: IcsConsensusState, header: Header, env: Env, o: UpdateClientOutput)
    requires FromSol(sol) == Some(trusted)
    ensures UpdateClient(lib, trusted, header, env) == Some(o) <==>
              o.trustedConsensusState == sol && o.env == env && VerifiedHeader(lib, o, header)
  {
    ConversionsMean(trusted, sol);
    SolRoundTrip(sol);
    ConversionsMean(StateOf(header), o.newConsensusState);
    NarrowWiden(header.trustedHeight, o.trustedHeight);
    NarrowWiden(header.height, o.newHeight);
  }

  /** The new state has the header's two hashes, and its second unless that lies outside an unsigned word. */
  lemma NewStateIsTheHeaders(
    lib: Library, trusted: IcsConsensusState, header: Header, env: Env, o: UpdateClientOutput)
    requires UpdateClient(lib, trusted, header, env) == Some(o)
    ensures o.newConsensusState.root == header.appHash
    ensures o.newConsensusState.nextValidatorsHash == header.nextValidatorsHash
    ensures o.newConsensusState.timestamp == header.time / 1_000_000_000 <==>
              0 <= header.time < 0x1_0000_0000_0000_0000 * 1_000_000_000
  {
    FloorBounds(header.time);
  }

  /** The outputs the update program can commit are exactly those with a verified header behind them. */
  lemma UpdateClientCommits(lib: Library, c: Codec, o: UpdateClientOutput)
    requires FaithfulCodec(c)
    ensures (exists stdin :: UpdateClientMain(lib, c, stdin) == Some(o)) <==> exists h :: VerifiedHeader(lib, o, h)
  {
    if stdin :| UpdateClientMain(lib, c, stdin) == Some(o) {
      var h := UpdateClientHeader(lib, c, stdin, o);
    }
    if h :| VerifiedHeader(lib, o, h) {
      var sol := o.trustedConsensusState;
      ConversionsMean(IcsOf(sol), sol);
      var stdin := [c.consensusState.encode(sol), c.header.encode(h), c.env.encode(o.env)];
      UpdateClientOutputs(lib, sol, FromSol(sol).value, h, o.env, o);
      assert UpdateClientMain(lib, c, stdin) == Some(o);
    }
  }

  lemma UpdateClientHeader(lib: Library, c: Codec, stdin: seq<Bytes>, o: UpdateClientOutput) returns (h: Header)
    requires UpdateClientMain(lib, c, stdin) == Some(o)
    ensures VerifiedHeader(lib, o, h)
  {
    var sol := c.consensusState.decode(stdin[0]).value;
    h := c.header.decode(stdin[1]).value;
    UpdateClientOutputs(lib, sol, FromSol(sol).value, h, c.env.decode(stdin[2]).value, o);
  }

  function PairsOf(items: seq<Item>): seq<KVPair> {
    seq(|items|, i requires 0 <= i < |items| => KVPair(items[i].path, items[i].value))
  }

  /** Going through the requests one by one succeeds exactly when every one of them has its Merkle proof, and gives
      their pairs in their order. */
  lemma {:induction false} MembershipOutputs(lib: Library, root: Bytes32, items: seq<Item>)
    ensures ProvePairs(lib, root, items)
            == if forall item :: item in items ==> Proves(lib, root, item.path, item.value, item.proof)
               then Some(PairsOf(items)) else None
  {
    if items != [] {
      var rest := items[1..];
      MembershipOutputs(lib, root, rest);
      assert items == [items[0]] + rest;
      assert PairsOf(items) == [KVPair(items[0].path, items[0].value)] + PairsOf(rest);
    }
  }

  /** The program outputs o exactly when o carries its inputs and the library found misbehaviour from what the map
      makes of the two states. */
  lemma MisbehaviourOutputs(
    lib: Library, env: Env, e: Evidence, sol1: ConsensusState, sol2: ConsensusState, o: MisbehaviourOutput)
    requires sol1.timestamp <= 253402300799 && sol2.timestamp <= 253402300799
    ensures CheckForMisbehaviour(lib, env, e, IcsOf(sol1), IcsOf(sol2)) == Some(o) <==>
              && o.env == env && o.trustedConsensusState1 == sol1 && o.trustedConsensusState2 == sol2
              && exists used1, used2 :: MisbehaviourBehind(lib, o, e, used1, used2)
  {
    ConversionsMean(IcsOf(sol1), sol1);
    ConversionsMean(IcsOf(sol2), sol2);
    SolRoundTrip(sol1);
    SolRoundTrip(sol2);
    NarrowWiden(e.header1.trustedHeight, o.trustedHeight1);
    NarrowWiden(e.header2.trustedHeight, o.trustedHeight2);
    var states := TrustedStates(e, IcsOf(sol1), IcsOf(sol2));
    var used1, used2 := StateFor(states, e.header1).value, StateFor(states, e.header2).value;
    if CheckForMisbehaviour(lib, env, e, IcsOf(sol1), IcsOf(sol2)) == Some(o) {
      assert MisbehaviourBehind(lib, o, e, used1, used2);
    }
  }

  /** The second header always gets its own trusted state; the first gets its own exactly when the heights differ
      or the two states are one. */
  lemma CollapsedMap(e: Evidence, trusted1: IcsConsensusState, trusted2: IcsConsensusState)
    ensures StateFor(TrustedStates(e, trusted1, trusted2), e.header2) == Some(trusted2)
    ensures StateFor(TrustedStates(e, trusted1, trusted2), e.header1) == Some(trusted1) <==>
              e.header1.trustedHeight.revisionHeight != e.header2.trustedHeight.revisionHeight || trusted1 == trusted2
  {
  }
}
