/** The ICS-07 client the contract stands for: it keeps a full consensus state per height, has no cache of
    proofs, and either accepts a call or ignores it. */
module Ics07Client {
  import opened Wrappers
  import opened Msgs
  import opened KvSearch
  import opened ClientSpec

  datatype FullClient = FullClient(client: ClientState, states: map<uint32, ConsensusState>)

  datatype Answer = Answer(returned: Option<Returned>, post: FullClient)

  /** A genesis word that is not the digest of any consensus state leaves the client knowing nothing. */
  function Initial(client: ClientState, genesis: Digest): FullClient {
    FullClient(
      client,
      match genesis
      case ConsensusStateHash(cs) => map[client.latestHeight.revisionHeight := cs]
      case _ => map[])
  }

  predicate Holds(a: FullClient, height: uint32, cs: ConsensusState) {
    height in a.states && a.states[height] == cs
  }

  predicate EnvAdmissible(client: ClientState, blockTime: nat, env: Env) {
    && env.now <= blockTime <= env.now + 3000
    && env == Env(client.chainId, client.trustLevel, client.trustingPeriod, env.now)
    && client.trustingPeriod <= client.unbondingPeriod
  }

  predicate Admissible(a: FullClient, blockTime: nat, o: UpdateClientOutput) {
    && !a.client.isFrozen
    && EnvAdmissible(a.client, blockTime, o.env)
    && Holds(a, o.trustedHeight.revisionHeight, o.trustedConsensusState)
  }

  /** The new header contradicts what is stored at its height, or does not move time forward. */
  predicate Conflicts(a: FullClient, o: UpdateClientOutput) {
    && o.newHeight.revisionHeight in a.states
    && (a.states[o.newHeight.revisionHeight] != o.newConsensusState
        || o.trustedConsensusState.timestamp >= o.newConsensusState.timestamp)
  }

  function Learn(a: FullClient, o: UpdateClientOutput): FullClient {
    if o.newHeight.revisionHeight in a.states then a
    else FullClient(
      if o.newHeight.revisionHeight > a.client.latestHeight.revisionHeight
      then a.client.(latestHeight := o.newHeight) else a.client,
      a.states[o.newHeight.revisionHeight := o.newConsensusState])
  }

  function Halt(a: FullClient): FullClient {
    a.(client := a.client.(isFrozen := true))
  }

  function Ignore(a: FullClient): Answer {
    Answer(None, a)
  }

  function OnUpdate(d: Deployment, a: FullClient, blockTime: nat, p: SP1Proof, o: UpdateClientOutput): Answer {
    if p.vKey != d.updateClientVKey || !Admissible(a, blockTime, o) then Ignore(a)
    else if o.newHeight.revisionHeight in a.states && !Conflicts(a, o) then Answer(Some(Updated(NoOp)), a)
    else if !d.accepts(p) then Ignore(a)
    else if Conflicts(a, o) then Answer(Some(Updated(Misbehaviour)), Halt(a))
    else Answer(Some(Updated(Update)), Learn(a, o))
  }

  predicate ProvesPair(pairs: seq<KVPair>, path: Path, value: Bytes) {
    1 <= |pairs| <= 256 && FirstValue(pairs, path) == Some(value)
  }

  predicate AcceptsPlain(d: Deployment, a: FullClient, msg: MsgMembership, m: SP1MembershipProof, o: MembershipOutput) {
    && m.sp1Proof.vKey == d.membershipVKey && d.accepts(m.sp1Proof)
    && !a.client.isFrozen
    && msg.proofHeight.revisionNumber == a.client.latestHeight.revisionNumber
    && Holds(a, msg.proofHeight.revisionHeight, m.trustedConsensusState)
    && o.commitmentRoot == m.trustedConsensusState.root
    && ProvesPair(o.kvPairs, msg.path, msg.value)
  }

  predicate AcceptsWithUpdate(
    d: Deployment, a: FullClient, blockTime: nat, msg: MsgMembership, p: SP1Proof, o: UcAndMembershipOutput)
  {
    && p.vKey == d.ucAndMembershipVKey && d.accepts(p)
    && Admissible(a, blockTime, o.updateClientOutput)
    && !Conflicts(a, o.updateClientOutput)
    && msg.proofHeight == o.updateClientOutput.newHeight
    && ProvesPair(o.kvPairs, msg.path, msg.value)
  }

  function OnMembership(d: Deployment, a: FullClient, blockTime: nat, msg: MsgMembership): Answer {
    match msg.proof
    case Some(Plain(Some(m))) =>
      (match d.abi.membership(m.sp1Proof.publicValues)
       case Some(o) =>
         if AcceptsPlain(d, a, msg, m, o)
         then Answer(Some(TrustedTimestamp(m.trustedConsensusState.timestamp)), a) else Ignore(a)
       case None => Ignore(a))
    case Some(WithUpdate(Some(p))) =>
      (match d.abi.ucAndMembership(p.publicValues)
       case Some(o) =>
         if AcceptsWithUpdate(d, a, blockTime, msg, p, o)
         then Answer(Some(TrustedTimestamp(o.updateClientOutput.newConsensusState.timestamp)),
                     Learn(a, o.updateClientOutput))
         else Ignore(a)
       case None => Ignore(a))
    case _ => Ignore(a)
  }

  predicate AcceptsMisbehaviour(d: Deployment, a: FullClient, blockTime: nat, p: SP1Proof, o: MisbehaviourOutput) {
    && p.vKey == d.misbehaviourVKey && d.accepts(p)
    && !a.client.isFrozen
    && EnvAdmissible(a.client, blockTime, o.env)
    && Holds(a, o.trustedHeight1.revisionHeight, o.trustedConsensusState1)
    && Holds(a, o.trustedHeight2.revisionHeight, o.trustedConsensusState2)
  }

  function Respond(d: Deployment, a: FullClient, e: Event): Answer {
    match e.call
    case UpdateClient(Some(p)) =>
      (match d.abi.updateClient(p.publicValues)
       case Some(o) => OnUpdate(d, a, e.blockTime, p, o)
       case None => Ignore(a))
    case Membership(msg) => OnMembership(d, a, e.blockTime, msg)
    case SubmitMisbehaviour(Some(p)) =>
      (match d.abi.misbehaviour(p.publicValues)
       case Some(o) =>
         if AcceptsMisbehaviour(d, a, e.blockTime, p, o) then Answer(Some(Frozen), Halt(a)) else Ignore(a)
       case None => Ignore(a))
    case _ => Ignore(a)
  }

  function History(d: Deployment, a: FullClient, es: seq<Event>): FullClient {
    if es == [] then a
    else Respond(d, History(d, a, es[..|es| - 1]), es[|es| - 1]).post
  }
}
