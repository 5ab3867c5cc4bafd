/** The one assumption about the proof system, and what it says of the outputs the contract accepts. */
module Soundness {
  import opened Wrappers
  import opened Msgs
  import opened KvSearch
  import opened ProgramTypes
  import opened Meaning
  import opened Conversions
  import opened Programs
  import opened Streams
  import Commits

  /* A program, on some input, committed what a proof's public values decode to. */

  ghost predicate UpdateCommits(lib: Library, c: Codec, stdin: seq<Bytes>, o: UpdateClientOutput) {
    UpdateClientMain(lib, c, stdin) == Some(o)
  }

  ghost predicate MembershipCommits(lib: Library, c: Codec, stdin: seq<Bytes>, o: MembershipOutput) {
    MembershipMain(lib, c, stdin) == Some(o)
  }

  ghost predicate UcAndMembershipCommits(lib: Library, c: Codec, stdin: seq<Bytes>, o: UcAndMembershipOutput) {
    UcAndMembershipMain(lib, c, stdin) == Some(o)
  }

  ghost predicate MisbehaviourCommits(lib: Library, c: Codec, stdin: seq<Bytes>, o: MisbehaviourOutput) {
    MisbehaviourMain(lib, c, stdin) == Some(o)
  }

  ghost predicate ProvenUpdate(d: Deployment, lib: Library, c: Codec, p: SP1Proof) {
    exists stdin, o :: UpdateCommits(lib, c, stdin, o) && d.abi.updateClient(p.publicValues) == Some(o)
  }

  ghost predicate ProvenMembership(d: Deployment, lib: Library, c: Codec, p: SP1Proof) {
    exists stdin, o :: MembershipCommits(lib, c, stdin, o) && d.abi.membership(p.publicValues) == Some(o)
  }

  ghost predicate ProvenUcAndMembership(d: Deployment, lib: Library, c: Codec, p: SP1Proof) {
    exists stdin, o :: UcAndMembershipCommits(lib, c, stdin, o) && d.abi.ucAndMembership(p.publicValues) == Some(o)
  }

  ghost predicate ProvenMisbehaviour(d: Deployment, lib: Library, c: Codec, p: SP1Proof) {
    exists stdin, o :: MisbehaviourCommits(lib, c, stdin, o) && d.abi.misbehaviour(p.publicValues) == Some(o)
  }

  /** The verifier accepts a proof under a program's key only if that program ran to its end. */
  ghost predicate Sound(d: Deployment, lib: Library, c: Codec) {
    forall p: SP1Proof :: d.accepts(p) ==>
      && (p.vKey == d.updateClientVKey ==> ProvenUpdate(d, lib, c, p))
      && (p.vKey == d.membershipVKey ==> ProvenMembership(d, lib, c, p))
      && (p.vKey == d.ucAndMembershipVKey ==> ProvenUcAndMembership(d, lib, c, p))
      && (p.vKey == d.misbehaviourVKey ==> ProvenMisbehaviour(d, lib, c, p))
  }

  /** ICS-07's validity predicate, as far as heights and times go: what header verification guarantees. */
  predicate HeaderFollows(
    lib: Library, trusted: IcsConsensusState, h: Header, chainId: string, options: Options, now: uint64)
  {
    && h.trustedHeight.revisionNumber == h.height.revisionNumber == lib.revisionNumber(chainId)
    && h.trustedHeight.revisionHeight < h.height.revisionHeight
    && trusted.time < h.time <= now + options.clockDrift
    && now < trusted.time + options.trustingPeriod
  }

  ghost predicate VerifiesHeaders(lib: Library) {
    forall trusted, h, chainId, options, now ::
      lib.verifyHeader(trusted, h, chainId, options, now) ==> HeaderFollows(lib, trusted, h, chainId, options, now)
  }

  /** A root fixes one answer per path: a value, or the empty value for absence. */
  ghost predicate AnswersOnce(lib: Library) {
    forall root: Bytes32, path: Path, value: Bytes, other: Bytes, p: MerkleProof, q: MerkleProof ::
      Proves(lib, root, path, value, p) && Proves(lib, root, path, other, q) ==> value == other
  }

  /** An update output that some accepted proof carries, alone or in a combined proof. */
  ghost predicate AcceptedUpdate(d: Deployment, o: UpdateClientOutput) {
    exists p :: CarriesUpdate(d, p, o)
  }

  ghost predicate CarriesUpdate(d: Deployment, p: SP1Proof, o: UpdateClientOutput) {
    && d.accepts(p)
    && ((p.vKey == d.updateClientVKey && d.abi.updateClient(p.publicValues) == Some(o))
        || (p.vKey == d.ucAndMembershipVKey && d.abi.ucAndMembership(p.publicValues).Some?
            && d.abi.ucAndMembership(p.publicValues).value.updateClientOutput == o))
  }

  /** The contract's view of a verified header: 32-bit heights and whole seconds. The trusted state is within its
      trusting period exactly as long as the programs' host time is exact; after that it is always too old, by far. */
  predicate ValidUpdate(lib: Library, o: UpdateClientOutput) {
    && o.trustedHeight.revisionNumber == o.newHeight.revisionNumber == lib.revisionNumber(o.env.chainId)
    && o.trustedHeight.revisionHeight < o.newHeight.revisionHeight
    && o.trustedConsensusState.timestamp <= o.newConsensusState.timestamp <= o.env.now
    && (o.env.now < o.trustedConsensusState.timestamp + o.env.trustingPeriod <==> o.env.now <= LAST_EXACT_SECOND)
    && (o.env.now > LAST_EXACT_SECOND ==> o.trustedConsensusState.timestamp + LAST_EXACT_SECOND < o.env.now)
  }

  lemma VerifiedHeaderIsValid(lib: Library, o: UpdateClientOutput, h: Header)
    requires VerifiesHeaders(lib) && VerifiedHeader(lib, o, h)
    ensures ValidUpdate(lib, o)
  {
    var trusted := IcsOf(o.trustedConsensusState);
    assert HeaderFollows(lib, trusted, h, o.env.chainId, AskedOptions(o.env), AskedTime(o.env));
    HostTimestampExact(o.env);
    FloorBounds(h.time);
    FloorBounds(trusted.time);
    assert o.trustedConsensusState.timestamp == UnixSeconds(trusted.time);
    assert 0 <= UnixSeconds(h.time) <= o.env.now;
    assert o.newConsensusState.timestamp == UnixSeconds(h.time);
    SecondsAreMonotone(trusted.time, h.time);
    if o.env.now <= LAST_EXACT_SECOND {
      ComparisonsAgree(o.env, o.trustedConsensusState, h.time);
    } else {
      HostTimestampWraps(o.env);
    }
  }

  /** Header time always passes the trusted time, but its second passes the trusted second exactly when the header
      is not within that second. */
  lemma WhenSecondsMove(lib: Library, o: UpdateClientOutput, h: Header)
    requires VerifiesHeaders(lib) && VerifiedHeader(lib, o, h)
    ensures h.time > o.trustedConsensusState.timestamp * NANOS
    ensures o.trustedConsensusState.timestamp < o.newConsensusState.timestamp <==>
              h.time >= (o.trustedConsensusState.timestamp + 1) * NANOS
  {
    VerifiedHeaderIsValid(lib, o, h);
    var trusted := IcsOf(o.trustedConsensusState);
    assert HeaderFollows(lib, trusted, h, o.env.chainId, AskedOptions(o.env), AskedTime(o.env));
    FloorBounds(h.time);
    assert 0 <= UnixSeconds(h.time) < U64;
    assert o.newConsensusState.timestamp == UnixSeconds(h.time);
  }

  /** Behind every update output that the contract can act on there is a verified header. */
  lemma AcceptedUpdateHeader(d: Deployment, lib: Library, c: Codec, o: UpdateClientOutput) returns (h: Header)
    requires Sound(d, lib, c) && AcceptedUpdate(d, o)
    ensures VerifiedHeader(lib, o, h)
  {
    var p :| CarriesUpdate(d, p, o);
    if p.vKey == d.updateClientVKey && d.abi.updateClient(p.publicValues) == Some(o) {
      assert ProvenUpdate(d, lib, c, p);
      var stdin :| UpdateCommits(lib, c, stdin, o);
      h := UpdateClientHeader(lib, c, stdin, o);
    } else {
      assert ProvenUcAndMembership(d, lib, c, p);
      var whole := d.abi.ucAndMembership(p.publicValues).value;
      var stdin :| UcAndMembershipCommits(lib, c, stdin, whole);
      h := Commits.UcAndMembershipCommitsProven(lib, c, stdin, whole);
    }
  }

  lemma AcceptedUpdateIsValid(d: Deployment, lib: Library, c: Codec, o: UpdateClientOutput)
    requires Sound(d, lib, c) && VerifiesHeaders(lib) && AcceptedUpdate(d, o)
    ensures ValidUpdate(lib, o)
  {
    var h := AcceptedUpdateHeader(d, lib, c, o);
    VerifiedHeaderIsValid(lib, o, h);
  }

  /** The counterparty chain, as its states in whole seconds by revision height. */
  type Blockchain = uint32 -> ConsensusState

  /** A chain, the client deployed to follow it, and the time span of the blocks in which that client is called. */
  datatype Scene = Scene(chain: Blockchain, client: ClientState, since: nat, until: nat)

  /** The environments a proof may be made in for this client: its own chain id, trust level and trusting period, the
      latter no longer than the unbonding period, and a time that is at most 3000 seconds before the span and not
      after it. */
  predicate Admits(w: Scene, env: Env) {
    && env == Env(w.client.chainId, w.client.trustLevel, w.client.trustingPeriod, env.now)
    && w.client.trustingPeriod <= w.client.unbondingPeriod
    && w.since <= env.now + 3000
    && env.now <= w.until
  }

  /** In these environments, verification from a true state accepts only the chain's own headers. */
  ghost predicate VerifiesOnly(lib: Library, w: Scene) {
    forall trusted, h, env ::
      Admits(w, env) && lib.verifyHeader(trusted, h, env.chainId, AskedOptions(env), AskedTime(env)) ==>
        TrueToChain(w.chain, trusted, h)
  }

  ghost predicate TrueToChain(chain: Blockchain, trusted: IcsConsensusState, h: Header) {
    forall from: Height, to: Height ::
      SameHeight(h.trustedHeight, from) && SameHeight(h.height, to) && Shows(trusted, chain(from.revisionHeight)) ==>
        LeadsTo(h, chain(to.revisionHeight))
  }

  lemma TrueSuccessor(lib: Library, chain: Blockchain, o: UpdateClientOutput, h: Header)
    requires VerifiedHeader(lib, o, h) && TrueToChain(chain, IcsOf(o.trustedConsensusState), h)
    requires o.trustedConsensusState == chain(o.trustedHeight.revisionHeight)
    ensures o.newConsensusState == chain(o.newHeight.revisionHeight)
  {
    var from, to := o.trustedHeight, o.newHeight;
    assert Shows(IcsOf(o.trustedConsensusState), chain(from.revisionHeight));
    assert SameHeight(h.trustedHeight, from) && SameHeight(h.height, to);
    assert LeadsTo(h, chain(to.revisionHeight)) && LeadsTo(h, o.newConsensusState);
  }

  /** An accepted update made in such an environment that starts from the chain's state ends in the chain's state. */
  lemma AcceptedUpdateIsTrue(d: Deployment, lib: Library, c: Codec, w: Scene, o: UpdateClientOutput)
    requires Sound(d, lib, c) && VerifiesOnly(lib, w) && AcceptedUpdate(d, o) && Admits(w, o.env)
    requires o.trustedConsensusState == w.chain(o.trustedHeight.revisionHeight)
    ensures o.newConsensusState == w.chain(o.newHeight.revisionHeight)
  {
    var h := AcceptedUpdateHeader(d, lib, c, o);
    VerifiedIsTrue(lib, w, o, h);
    TrueSuccessor(lib, w.chain, o, h);
  }

  lemma VerifiedIsTrue(lib: Library, w: Scene, o: UpdateClientOutput, h: Header)
    requires VerifiesOnly(lib, w) && Admits(w, o.env) && VerifiedHeader(lib, o, h)
    ensures TrueToChain(w.chain, IcsOf(o.trustedConsensusState), h)
  {
  }

  lemma FoundPairIsProven(lib: Library, root: Bytes32, pairs: seq<KVPair>)
    requires ProvenPairs(lib, root, pairs)
    ensures forall path, value :: FirstValue(pairs, path) == Some(value) ==> Proven(lib, root, path, value)
    ensures forall path :: FirstValue(pairs, path) == Some([]) ==>
              exists proof :: lib.verifyNonMembership(proof, root, path)
    ensures forall path, value | value != [] :: FirstValue(pairs, path) == Some(value) ==>
              exists proof :: lib.verifyMembership(proof, root, path, value)
  {
    forall path, value | FirstValue(pairs, path) == Some(value)
      ensures Proven(lib, root, path, value)
      ensures value == [] ==> exists proof :: lib.verifyNonMembership(proof, root, path)
      ensures value != [] ==> exists proof :: lib.verifyMembership(proof, root, path, value)
    {
      ProvenMeans(lib, root, path, value);
      FirstValueIsFirst(pairs, path);
      var i :| 0 <= i < |pairs| && pairs[i] == KVPair(path, value);
      assert pairs[i] in pairs;
    }
  }

  /** What an accepted membership proof says: 1 to 255 pairs, each found pair proven under the committed root. */
  lemma AcceptedMembership(d: Deployment, lib: Library, c: Codec, p: SP1Proof, o: MembershipOutput)
    requires Sound(d, lib, c) && d.accepts(p) && p.vKey == d.membershipVKey
    requires d.abi.membership(p.publicValues) == Some(o)
    ensures 1 <= |o.kvPairs| <= 255
    ensures forall path, value :: FirstValue(o.kvPairs, path) == Some(value) ==>
              Proven(lib, o.commitmentRoot, path, value)
    ensures forall path :: FirstValue(o.kvPairs, path) == Some([]) ==>
              exists proof :: lib.verifyNonMembership(proof, o.commitmentRoot, path)
    ensures forall path, value | value != [] :: FirstValue(o.kvPairs, path) == Some(value) ==>
              exists proof :: lib.verifyMembership(proof, o.commitmentRoot, path, value)
  {
    assert ProvenMembership(d, lib, c, p);
    var stdin :| MembershipCommits(lib, c, stdin, o);
    Commits.MembershipCommitsProven(lib, c, stdin, o);
    FoundPairIsProven(lib, o.commitmentRoot, o.kvPairs);
  }

  /** The same for a combined proof, under the root of the new consensus state. */
  lemma AcceptedUcAndMembership(d: Deployment, lib: Library, c: Codec, p: SP1Proof, o: UcAndMembershipOutput)
    requires Sound(d, lib, c) && d.accepts(p) && p.vKey == d.ucAndMembershipVKey
    requires d.abi.ucAndMembership(p.publicValues) == Some(o)
    ensures 1 <= |o.kvPairs| <= 255
    ensures forall path, value :: FirstValue(o.kvPairs, path) == Some(value) ==>
              Proven(lib, o.updateClientOutput.newConsensusState.root, path, value)
    ensures forall path :: FirstValue(o.kvPairs, path) == Some([]) ==>
              exists proof :: lib.verifyNonMembership(proof, o.updateClientOutput.newConsensusState.root, path)
    ensures forall path, value | value != [] :: FirstValue(o.kvPairs, path) == Some(value) ==>
              exists proof :: lib.verifyMembership(proof, o.updateClientOutput.newConsensusState.root, path, value)
  {
    assert ProvenUcAndMembership(d, lib, c, p);
    var stdin :| UcAndMembershipCommits(lib, c, stdin, o);
    var h := Commits.UcAndMembershipCommitsProven(lib, c, stdin, o);
    FoundPairIsProven(lib, o.updateClientOutput.newConsensusState.root, o.kvPairs);
  }

  /** In these environments, the library finds no misbehaviour from true states: the chain does not misbehave. */
  ghost predicate FindsNoMisbehaviour(lib: Library, w: Scene) {
    forall used1, used2, e, env ::
      && Admits(w, env)
      && lib.verifyMisbehaviour(used1, used2, e, env.chainId, AskedOptions(env), AskedTime(env))
      && lib.isMisbehaviour(e.header1, e.header2) ==>
        !(TrueState(w.chain, used1, e.header1) && TrueState(w.chain, used2, e.header2))
  }

  ghost predicate TrueState(chain: Blockchain, used: IcsConsensusState, h: Header) {
    exists from: Height :: SameHeight(h.trustedHeight, from) && Shows(used, chain(from.revisionHeight))
  }

  lemma NoneFound(
    lib: Library, w: Scene, used1: IcsConsensusState, used2: IcsConsensusState, e: Evidence, env: Env)
    requires FindsNoMisbehaviour(lib, w) && Admits(w, env)
    requires lib.verifyMisbehaviour(used1, used2, e, env.chainId, AskedOptions(env), AskedTime(env))
    requires lib.isMisbehaviour(e.header1, e.header2)
    ensures !(TrueState(w.chain, used1, e.header1) && TrueState(w.chain, used2, e.header2))
  {
  }

  /** True states in the output are what the library saw. */
  lemma TrueOutputIsSeen(
    lib: Library, chain: Blockchain, o: MisbehaviourOutput, e: Evidence, used1: IcsConsensusState,
    used2: IcsConsensusState)
    requires MisbehaviourBehind(lib, o, e, used1, used2)
    requires o.trustedConsensusState1 == chain(o.trustedHeight1.revisionHeight)
    requires o.trustedConsensusState2 == chain(o.trustedHeight2.revisionHeight)
    ensures TrueState(chain, used1, e.header1) && TrueState(chain, used2, e.header2)
  {
    assert SameHeight(e.header1.trustedHeight, o.trustedHeight1);
    assert SameHeight(e.header2.trustedHeight, o.trustedHeight2);
    assert Shows(IcsOf(o.trustedConsensusState1), o.trustedConsensusState1);
    assert Shows(IcsOf(o.trustedConsensusState2), o.trustedConsensusState2);
  }

  /** Accepted misbehaviour output made in such an environment names a state that is not the chain's. */
  lemma AcceptedMisbehaviourIsFalse(
    d: Deployment, lib: Library, c: Codec, w: Scene, p: SP1Proof, o: MisbehaviourOutput)
    requires Sound(d, lib, c) && FindsNoMisbehaviour(lib, w) && d.accepts(p) && p.vKey == d.misbehaviourVKey
    requires d.abi.misbehaviour(p.publicValues) == Some(o) && Admits(w, o.env)
    ensures o.trustedConsensusState1 != w.chain(o.trustedHeight1.revisionHeight)
         || o.trustedConsensusState2 != w.chain(o.trustedHeight2.revisionHeight)
  {
    assert ProvenMisbehaviour(d, lib, c, p);
    var stdin :| MisbehaviourCommits(lib, c, stdin, o);
    var used1, used2 := Commits.MisbehaviourInputOf(lib, c, stdin, o);
    var e := ParseMisbehaviour(c, stdin).value.evidence;
    NoneFound(lib, w, used1, used2, e, o.env);
    if && o.trustedConsensusState1 == w.chain(o.trustedHeight1.revisionHeight)
       && o.trustedConsensusState2 == w.chain(o.trustedHeight2.revisionHeight)
    {
      TrueOutputIsSeen(lib, w.chain, o, e, used1, used2);
    }
  }
}
