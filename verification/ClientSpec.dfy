/** What one call does, as a transaction on storage: it commits a whole new storage or leaves the old one. */
module ClientSpec {
  import opened Wrappers
  import opened Msgs
  import opened KvSearch

  const ALLOWED_SP1_CLOCK_DRIFT := 3000

  datatype Store = Store(client: ClientState, hashes: map<uint32, Digest>, verified: set<Digest>)

  datatype Call =
    | UpdateClient(updateMsg: Option<SP1Proof>)
    | Membership(membershipMsg: MsgMembership)
    | SubmitMisbehaviour(misbehaviourMsg: Option<SP1Proof>)

  /** A call and the timestamp of the block that runs it. */
  datatype Event = Event(blockTime: nat, call: Call)

  datatype Returned = Updated(result: UpdateResult) | TrustedTimestamp(timestamp: uint64) | Frozen

  datatype Tx = Tx(result: Result<Returned, Error>, post: Store)

  function Genesis(client: ClientState, consensusState: Digest): Store {
    Store(client, map[client.latestHeight.revisionHeight := consensusState], {})
  }

  /** Reading a Solidity mapping: a height never written holds the zero word. */
  function HashAt(s: Store, height: uint32): Digest {
    if height in s.hashes then s.hashes[height] else Zero
  }

  /* The view functions. */

  function ValidateEnv(client: ClientState, blockTime: nat, env: Env): Check<Error> {
    if env.now > blockTime then Fail(ProofIsInTheFuture)
    else if blockTime - env.now > ALLOWED_SP1_CLOCK_DRIFT then Fail(ProofIsTooOld)
    else if env.chainId != client.chainId then Fail(ChainIdMismatch)
    else if env.trustThreshold != client.trustLevel then Fail(TrustThresholdMismatch)
    else if env.trustingPeriod != client.trustingPeriod then Fail(TrustingPeriodMismatch)
    else if env.trustingPeriod > client.unbondingPeriod then Fail(TrustingPeriodTooLong)
    else Pass
  }

  function ValidateTrusted(s: Store, height: Height, consensusState: ConsensusState): Check<Error> {
    if HashAt(s, height.revisionHeight) == Zero then Fail(ConsensusStateNotFound)
    else Need(HashAt(s, height.revisionHeight) == ConsensusStateHash(consensusState), ConsensusStateHashMismatch)
  }

  function ValidateUpdate(s: Store, blockTime: nat, o: UpdateClientOutput): Check<Error> {
    if s.client.isFrozen then Fail(FrozenClientState)
    else
      var env := ValidateEnv(s.client, blockTime, o.env);
      if env.Fail? then env else ValidateTrusted(s, o.trustedHeight, o.trustedConsensusState)
  }

  function ValidateMisbehaviour(s: Store, blockTime: nat, o: MisbehaviourOutput): Check<Error> {
    if s.client.isFrozen then Fail(FrozenClientState)
    else
      var env := ValidateEnv(s.client, blockTime, o.env);
      if env.Fail? then env
      else
        var first := ValidateTrusted(s, o.trustedHeight1, o.trustedConsensusState1);
        if first.Fail? then first else ValidateTrusted(s, o.trustedHeight2, o.trustedConsensusState2)
  }

  function ValidateMembership(s: Store, root: Bytes32, height: uint32, trusted: ConsensusState): Check<Error> {
    if s.client.isFrozen then Fail(FrozenClientState)
    else if root != trusted.root then Fail(ConsensusStateRootMismatch)
    else Need(HashAt(s, height) == ConsensusStateHash(trusted), ConsensusStateHashMismatch)
  }

  function CheckUpdateResult(s: Store, o: UpdateClientOutput): UpdateResult {
    var stored := HashAt(s, o.newHeight.revisionHeight);
    if stored == Zero then Update
    else if stored != ConsensusStateHash(o.newConsensusState)
         || o.trustedConsensusState.timestamp >= o.newConsensusState.timestamp then Misbehaviour
    else NoOp
  }

  /* The storage writes. */

  function RecordUpdate(s: Store, o: UpdateClientOutput): Store {
    s.(client := if o.newHeight.revisionHeight > s.client.latestHeight.revisionHeight
                 then s.client.(latestHeight := o.newHeight) else s.client,
       hashes := s.hashes[o.newHeight.revisionHeight := ConsensusStateHash(o.newConsensusState)])
  }

  function Freeze(s: Store): Store {
    s.(client := s.client.(isFrozen := true))
  }

  /** A proof of one pair always goes to the verifier; a proof of several does so unless it is cached, and is
      cached from then on. */
  function Authenticate(d: Deployment, s: Store, p: SP1Proof, pairs: nat): Result<Store, Error> {
    if pairs != 1 && ProofHash(p) in s.verified then Ok(s)
    else if !d.accepts(p) then Err(InvalidProof)
    else Ok(if pairs == 1 then s else s.(verified := s.verified + {ProofHash(p)}))
  }

  function Decode<T>(payload: Option<T>): Result<T, Error> {
    match payload
    case Some(v) => Ok(v)
    case None => Err(MalformedAbi)
  }

  /* The calls: every check comes first, in the order in which it can revert; then storage changes at once. */

  function ExecuteUpdate(d: Deployment, s: Store, blockTime: nat, msg: Option<SP1Proof>)
    : Result<(Returned, Store), Error>
  {
    var p :- Decode(msg);
    :- Need(p.vKey == d.updateClientVKey, VerificationKeyMismatch);
    var o :- Decode(d.abi.updateClient(p.publicValues));
    :- ValidateUpdate(s, blockTime, o);
    var result := CheckUpdateResult(s, o);
    :- Need(result.NoOp? || d.accepts(p), InvalidProof);
    Ok((Updated(result),
        match result case Update => RecordUpdate(s, o) case Misbehaviour => Freeze(s) case NoOp => s))
  }

  function ExecutePlain(d: Deployment, s: Store, msg: MsgMembership, payload: Option<SP1MembershipProof>)
    : Result<(Returned, Store), Error>
  {
    var latest := s.client.latestHeight;
    :- Need(msg.proofHeight.revisionNumber == latest.revisionNumber, ProofHeightMismatch);
    var m :- Decode(payload);
    :- Need(m.sp1Proof.vKey == d.membershipVKey, VerificationKeyMismatch);
    var o :- Decode(d.abi.membership(m.sp1Proof.publicValues));
    :- Need(1 <= |o.kvPairs| <= 256, LengthIsOutOfRange);
    :- Search(o.kvPairs, msg.path, msg.value);
    :- ValidateMembership(s, o.commitmentRoot, msg.proofHeight.revisionHeight, m.trustedConsensusState);
    var post :- Authenticate(d, s, m.sp1Proof, |o.kvPairs|);
    Ok((TrustedTimestamp(m.trustedConsensusState.timestamp), post))
  }

  function ExecuteWithUpdate(d: Deployment, s: Store, blockTime: nat, msg: MsgMembership, payload: Option<SP1Proof>)
    : Result<(Returned, Store), Error>
  {
    var p :- Decode(payload);
    :- Need(p.vKey == d.ucAndMembershipVKey, VerificationKeyMismatch);
    var o :- Decode(d.abi.ucAndMembership(p.publicValues));
    :- Need(1 <= |o.kvPairs| <= 256, LengthIsOutOfRange);
    var update := o.updateClientOutput;
    :- Need(msg.proofHeight == update.newHeight, ProofHeightMismatch);
    :- ValidateUpdate(s, blockTime, update);
    var checked :- Authenticate(d, s, p, |o.kvPairs|);
    var result := CheckUpdateResult(s, update);
    :- Need(!result.Misbehaviour?, CannotHandleMisbehavior);
    :- Search(o.kvPairs, msg.path, msg.value);
    Ok((TrustedTimestamp(update.newConsensusState.timestamp),
        if result.Update? then RecordUpdate(checked, update) else checked))
  }

  function ExecuteMembership(d: Deployment, s: Store, blockTime: nat, msg: MsgMembership)
    : Result<(Returned, Store), Error>
  {
    var proof :- Decode(msg.proof);
    match proof
    case Plain(payload) => ExecutePlain(d, s, msg, payload)
    case WithUpdate(payload) => ExecuteWithUpdate(d, s, blockTime, msg, payload)
  }

  function ExecuteMisbehaviour(d: Deployment, s: Store, blockTime: nat, msg: Option<SP1Proof>)
    : Result<(Returned, Store), Error>
  {
    var p :- Decode(msg);
    :- Need(p.vKey == d.misbehaviourVKey, VerificationKeyMismatch);
    var o :- Decode(d.abi.misbehaviour(p.publicValues));
    :- ValidateMisbehaviour(s, blockTime, o);
    :- Need(d.accepts(p), InvalidProof);
    Ok((Frozen, Freeze(s)))
  }

  function Execute(d: Deployment, s: Store, e: Event): Result<(Returned, Store), Error> {
    match e.call
    case UpdateClient(msg) => ExecuteUpdate(d, s, e.blockTime, msg)
    case Membership(msg) => ExecuteMembership(d, s, e.blockTime, msg)
    case SubmitMisbehaviour(msg) => ExecuteMisbehaviour(d, s, e.blockTime, msg)
  }

  /** One transaction: a revert keeps the storage it started from. */
  function Step(d: Deployment, s: Store, e: Event): Tx {
    match Execute(d, s, e)
    case Ok((returned, post)) => Tx(Ok(returned), post)
    case Err(error) => Tx(Err(error), s)
  }

  /** The storage after a list of transactions. */
  function Run(d: Deployment, s: Store, es: seq<Event>): Store {
    if es == [] then s
    else Step(d, Run(d, s, es[..|es| - 1]), es[|es| - 1]).post
  }

  /** What the i-th transaction of a list returned. */
  function ResultAt(d: Deployment, s: Store, es: seq<Event>, i: nat): Result<Returned, Error>
    requires i < |es|
  {
    Step(d, Run(d, s, es[..i]), es[i]).result
  }
}
