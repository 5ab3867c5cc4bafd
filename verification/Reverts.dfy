/** Why a call reverts: for every call, the rules it is held to, in order. They are written out in stored words, plain
    numbers and indices, apart from the code that checks them. */
module Reverts {
  import opened Wrappers
  import opened Msgs
  import opened KvSearch
  import opened ClientSpec

  datatype Rule = Rule(holds: bool, otherwise: Error)

  ghost predicate Met(rules: seq<Rule>) {
    forall i :: 0 <= i < |rules| ==> rules[i].holds
  }

  /** The first rule that does not hold is this one. */
  ghost predicate FirstBroken(rules: seq<Rule>, i: int) {
    0 <= i < |rules| && !rules[i].holds && forall j :: 0 <= j < i ==> rules[j].holds
  }

  ghost predicate Broken(rules: seq<Rule>, error: Error) {
    exists i :: FirstBroken(rules, i) && rules[i].otherwise == error
  }

  /* The rules. */

  function EnvRules(client: ClientState, blockTime: nat, env: Env): seq<Rule> {
    [Rule(env.now <= blockTime, ProofIsInTheFuture),
     Rule(blockTime <= env.now + 3000, ProofIsTooOld),
     Rule(env.chainId == client.chainId, ChainIdMismatch),
     Rule(env.trustThreshold == client.trustLevel, TrustThresholdMismatch),
     Rule(env.trustingPeriod == client.trustingPeriod, TrustingPeriodMismatch),
     Rule(env.trustingPeriod <= client.unbondingPeriod, TrustingPeriodTooLong)]
  }

  predicate Stored(s: Store, height: uint32, cs: ConsensusState) {
    height in s.hashes && s.hashes[height] == ConsensusStateHash(cs)
  }

  function KnownRules(s: Store, height: uint32, cs: ConsensusState): seq<Rule> {
    [Rule(height in s.hashes && s.hashes[height] != Zero, ConsensusStateNotFound),
     Rule(Stored(s, height, cs), ConsensusStateHashMismatch)]
  }

  ghost predicate Listed(pairs: seq<KVPair>, path: Path) {
    exists i :: 0 <= i < |pairs| && pairs[i].path == path
  }

  ghost predicate ListedFirst(pairs: seq<KVPair>, path: Path, value: Bytes) {
    exists i :: 0 <= i < |pairs| && pairs[i] == KVPair(path, value) && forall j :: 0 <= j < i ==> pairs[j].path != path
  }

  ghost function PairRules(pairs: seq<KVPair>, path: Path, value: Bytes): seq<Rule> {
    [Rule(Listed(pairs, path) || |pairs| == 256, MembershipProofKeyNotFound),
     Rule(Listed(pairs, path), CounterOverflow),
     Rule(ListedFirst(pairs, path, value), MembershipProofValueMismatch)]
  }

  function KeyRules(p: SP1Proof, key: Bytes32): seq<Rule> {
    [Rule(p.vKey == key, VerificationKeyMismatch)]
  }

  function LengthRules(pairs: seq<KVPair>): seq<Rule> {
    [Rule(1 <= |pairs| <= 256, LengthIsOutOfRange)]
  }

  function ProofRules(d: Deployment, s: Store, p: SP1Proof, pairs: nat): seq<Rule> {
    [Rule(d.accepts(p) || (pairs > 1 && ProofHash(p) in s.verified), InvalidProof)]
  }

  function LiveRules(s: Store): seq<Rule> {
    [Rule(!s.client.isFrozen, FrozenClientState)]
  }

  const MALFORMED := [Rule(false, MalformedAbi)]

  function CurrentRules(s: Store, blockTime: nat, o: UpdateClientOutput): seq<Rule> {
    LiveRules(s) + EnvRules(s.client, blockTime, o.env)
    + KnownRules(s, o.trustedHeight.revisionHeight, o.trustedConsensusState)
  }

  /** The new height has a word, and it is not the new state's or the second did not move. */
  predicate Contradicts(s: Store, o: UpdateClientOutput) {
    && o.newHeight.revisionHeight in s.hashes && s.hashes[o.newHeight.revisionHeight] != Zero
    && (!Stored(s, o.newHeight.revisionHeight, o.newConsensusState)
        || o.newConsensusState.timestamp <= o.trustedConsensusState.timestamp)
  }

  predicate Repeats(s: Store, o: UpdateClientOutput) {
    && Stored(s, o.newHeight.revisionHeight, o.newConsensusState)
    && o.trustedConsensusState.timestamp < o.newConsensusState.timestamp
  }

  function UpdateRules(d: Deployment, s: Store, blockTime: nat, p: SP1Proof): seq<Rule> {
    KeyRules(p, d.updateClientVKey)
    + match d.abi.updateClient(p.publicValues)
      case None => MALFORMED
      case Some(o) => CurrentRules(s, blockTime, o) + [Rule(Repeats(s, o) || d.accepts(p), InvalidProof)]
  }

  function RootRules(s: Store, root: Bytes32, height: uint32, trusted: ConsensusState): seq<Rule> {
    [Rule(!s.client.isFrozen, FrozenClientState),
     Rule(root == trusted.root, ConsensusStateRootMismatch),
     Rule(Stored(s, height, trusted), ConsensusStateHashMismatch)]
  }

  ghost function PlainOutputRules(
    d: Deployment, s: Store, msg: MsgMembership, m: SP1MembershipProof, o: MembershipOutput): seq<Rule>
  {
    LengthRules(o.kvPairs) + PairRules(o.kvPairs, msg.path, msg.value)
    + RootRules(s, o.commitmentRoot, msg.proofHeight.revisionHeight, m.trustedConsensusState)
    + ProofRules(d, s, m.sp1Proof, |o.kvPairs|)
  }

  ghost function PlainRules(d: Deployment, s: Store, msg: MsgMembership, payload: Option<SP1MembershipProof>)
    : seq<Rule>
  {
    [Rule(msg.proofHeight.revisionNumber == s.client.latestHeight.revisionNumber, ProofHeightMismatch)]
    + match payload
      case None => MALFORMED
      case Some(m) =>
        KeyRules(m.sp1Proof, d.membershipVKey)
        + match d.abi.membership(m.sp1Proof.publicValues)
          case None => MALFORMED
          case Some(o) => PlainOutputRules(d, s, msg, m, o)
  }

  ghost function WithUpdateRules(d: Deployment, s: Store, blockTime: nat, msg: MsgMembership, p: SP1Proof): seq<Rule> {
    KeyRules(p, d.ucAndMembershipVKey)
    + match d.abi.ucAndMembership(p.publicValues)
      case None => MALFORMED
      case Some(o) =>
        LengthRules(o.kvPairs)
        + [Rule(msg.proofHeight == o.updateClientOutput.newHeight, ProofHeightMismatch)]
        + CurrentRules(s, blockTime, o.updateClientOutput)
        + ProofRules(d, s, p, |o.kvPairs|)
        + [Rule(!Contradicts(s, o.updateClientOutput), CannotHandleMisbehavior)]
        + PairRules(o.kvPairs, msg.path, msg.value)
  }

  function MisbehaviourRules(d: Deployment, s: Store, blockTime: nat, p: SP1Proof): seq<Rule> {
    KeyRules(p, d.misbehaviourVKey)
    + match d.abi.misbehaviour(p.publicValues)
      case None => MALFORMED
      case Some(o) =>
        LiveRules(s) + EnvRules(s.client, blockTime, o.env)
        + KnownRules(s, o.trustedHeight1.revisionHeight, o.trustedConsensusState1)
        + KnownRules(s, o.trustedHeight2.revisionHeight, o.trustedConsensusState2)
        + ProofRules(d, s, p, 1)
  }

  ghost function Rules(d: Deployment, s: Store, e: Event): seq<Rule> {
    match e.call
    case UpdateClient(Some(p)) => UpdateRules(d, s, e.blockTime, p)
    case SubmitMisbehaviour(Some(p)) => MisbehaviourRules(d, s, e.blockTime, p)
    case Membership(msg) =>
      (match msg.proof
       case Some(Plain(payload)) => PlainRules(d, s, msg, payload)
       case Some(WithUpdate(Some(p))) => WithUpdateRules(d, s, e.blockTime, msg, p)
       case _ => MALFORMED)
    case _ => MALFORMED
  }

  /* Code against rules. */

  ghost predicate Judges(check: Check<Error>, rules: seq<Rule>) {
    match check
    case Pass => Met(rules)
    case Fail(error) => Broken(rules, error)
  }

  function Then(first: Check<Error>, second: Check<Error>): Check<Error> {
    if first.Fail? then first else second
  }

  function Verdict<T>(r: Result<T, Error>): Check<Error> {
    match r
    case Ok(_) => Pass
    case Err(error) => Fail(error)
  }

  lemma Both(first: Check<Error>, a: seq<Rule>, second: Check<Error>, b: seq<Rule>)
    returns (check: Check<Error>, rules: seq<Rule>)
    requires Judges(first, a)
    requires first.Pass? ==> Judges(second, b)
    ensures check == Then(first, second) && rules == a + b && Judges(check, rules)
  {
    check, rules := Then(first, second), a + b;
    if first.Fail? {
      var i :| FirstBroken(a, i) && a[i].otherwise == first.error;
      assert FirstBroken(rules, i);
    } else if second.Fail? {
      var i :| FirstBroken(b, i) && b[i].otherwise == second.error;
      assert FirstBroken(rules, |a| + i);
    }
  }

  lemma One(holds: bool, error: Error) returns (check: Check<Error>, rules: seq<Rule>)
    ensures check == Need(holds, error) && rules == [Rule(holds, error)] && Judges(check, rules)
  {
    check, rules := Need(holds, error), [Rule(holds, error)];
    if !holds {
      assert FirstBroken(rules, 0);
    }
  }

  /** A check that is right about the rules says when they are met, and which is the first that is not. */
  lemma JudgesExactly(check: Check<Error>, rules: seq<Rule>)
    requires Judges(check, rules)
    ensures check.Pass? <==> Met(rules)
    ensures forall error :: check == Fail(error) <==> Broken(rules, error)
  {
    forall error | Broken(rules, error)
      ensures check == Fail(error)
    {
      var i :| FirstBroken(rules, i) && rules[i].otherwise == error;
      if check.Fail? {
        var k :| FirstBroken(rules, k) && rules[k].otherwise == check.error;
        assert i == k;
      }
    }
  }

  /** The six environment checks: which environments pass, and which reason the others get. */
  lemma EnvReasons(client: ClientState, blockTime: nat, env: Env)
    ensures Judges(ValidateEnv(client, blockTime, env), EnvRules(client, blockTime, env))
    ensures ValidateEnv(client, blockTime, env).Pass? <==>
              && env.now <= blockTime <= env.now + 3000 && env.chainId == client.chainId
              && env.trustThreshold == client.trustLevel
              && env.trustingPeriod == client.trustingPeriod <= client.unbondingPeriod
    ensures ValidateEnv(client, blockTime, env) == Fail(ProofIsInTheFuture) <==> blockTime < env.now
    ensures ValidateEnv(client, blockTime, env) == Fail(ProofIsTooOld) <==> env.now + 3000 < blockTime
  {
    var r := EnvRules(client, blockTime, env);
    assert !r[0].holds ==> FirstBroken(r, 0);
    assert r[0].holds && !r[1].holds ==> FirstBroken(r, 1);
    assert r[0].holds && r[1].holds && !r[2].holds ==> FirstBroken(r, 2);
    assert r[0].holds && r[1].holds && r[2].holds && !r[3].holds ==> FirstBroken(r, 3);
    assert r[0].holds && r[1].holds && r[2].holds && r[3].holds && !r[4].holds ==> FirstBroken(r, 4);
    assert r[0].holds && r[1].holds && r[2].holds && r[3].holds && r[4].holds && !r[5].holds ==> FirstBroken(r, 5);
  }

  lemma KnownReasons(s: Store, height: Height, cs: ConsensusState)
    ensures Judges(ValidateTrusted(s, height, cs), KnownRules(s, height.revisionHeight, cs))
  {
    var rules := KnownRules(s, height.revisionHeight, cs);
    assert !rules[0].holds ==> FirstBroken(rules, 0);
    assert rules[0].holds && !rules[1].holds ==> FirstBroken(rules, 1);
  }

  lemma PairReasons(pairs: seq<KVPair>, path: Path, value: Bytes)
    requires 1 <= |pairs| <= 256
    ensures Judges(Search(pairs, path, value), PairRules(pairs, path, value))
  {
    FirstValueIsFirst(pairs, path);
    var rules := PairRules(pairs, path, value);
    assert !rules[0].holds ==> FirstBroken(rules, 0);
    assert rules[0].holds && !rules[1].holds ==> FirstBroken(rules, 1);
    assert rules[0].holds && rules[1].holds && !rules[2].holds ==> FirstBroken(rules, 2);
  }

  lemma CurrentReasons(s: Store, blockTime: nat, o: UpdateClientOutput)
    ensures Judges(ValidateUpdate(s, blockTime, o), CurrentRules(s, blockTime, o))
  {
    EnvReasons(s.client, blockTime, o.env);
    KnownReasons(s, o.trustedHeight, o.trustedConsensusState);
    var check, rules := One(!s.client.isFrozen, FrozenClientState);
    check, rules := Both(
      check, rules, ValidateEnv(s.client, blockTime, o.env), EnvRules(s.client, blockTime, o.env));
    check, rules := Both(
      check, rules, ValidateTrusted(s, o.trustedHeight, o.trustedConsensusState),
      KnownRules(s, o.trustedHeight.revisionHeight, o.trustedConsensusState));
  }

  lemma ProofReasons(d: Deployment, s: Store, p: SP1Proof, pairs: nat)
    requires pairs >= 1
    ensures Judges(Verdict(Authenticate(d, s, p, pairs)), ProofRules(d, s, p, pairs))
  {
    var check, rules := One(d.accepts(p) || (pairs > 1 && ProofHash(p) in s.verified), InvalidProof);
  }

  lemma UpdateReasons(d: Deployment, s: Store, blockTime: nat, p: SP1Proof)
    ensures Judges(Verdict(ExecuteUpdate(d, s, blockTime, Some(p))), UpdateRules(d, s, blockTime, p))
  {
    var key, keyRules := One(p.vKey == d.updateClientVKey, VerificationKeyMismatch);
    var check, rules := One(false, MalformedAbi);
    if d.abi.updateClient(p.publicValues).Some? {
      var o := d.abi.updateClient(p.publicValues).value;
      CurrentReasons(s, blockTime, o);
      check, rules := One(Repeats(s, o) || d.accepts(p), InvalidProof);
      check, rules := Both(ValidateUpdate(s, blockTime, o), CurrentRules(s, blockTime, o), check, rules);
    }
    check, rules := Both(key, keyRules, check, rules);
  }

  lemma MisbehaviourReasons(d: Deployment, s: Store, blockTime: nat, p: SP1Proof)
    ensures Judges(Verdict(ExecuteMisbehaviour(d, s, blockTime, Some(p))), MisbehaviourRules(d, s, blockTime, p))
  {
    var key, keyRules := One(p.vKey == d.misbehaviourVKey, VerificationKeyMismatch);
    var check, rules := One(false, MalformedAbi);
    if d.abi.misbehaviour(p.publicValues).Some? {
      var o := d.abi.misbehaviour(p.publicValues).value;
      EnvReasons(s.client, blockTime, o.env);
      KnownReasons(s, o.trustedHeight1, o.trustedConsensusState1);
      KnownReasons(s, o.trustedHeight2, o.trustedConsensusState2);
      check, rules := One(!s.client.isFrozen, FrozenClientState);
      check, rules := Both(
        check, rules, ValidateEnv(s.client, blockTime, o.env), EnvRules(s.client, blockTime, o.env));
      check, rules := Both(
        check, rules, ValidateTrusted(s, o.trustedHeight1, o.trustedConsensusState1),
        KnownRules(s, o.trustedHeight1.revisionHeight, o.trustedConsensusState1));
      check, rules := Both(
        check, rules, ValidateTrusted(s, o.trustedHeight2, o.trustedConsensusState2),
        KnownRules(s, o.trustedHeight2.revisionHeight, o.trustedConsensusState2));
      ProofReasons(d, s, p, 1);
      check, rules := Both(check, rules, Verdict(Authenticate(d, s, p, 1)), ProofRules(d, s, p, 1));
    }
    check, rules := Both(key, keyRules, check, rules);
  }

  lemma PlainReasons(d: Deployment, s: Store, msg: MsgMembership, payload: Option<SP1MembershipProof>)
    ensures Judges(Verdict(ExecutePlain(d, s, msg, payload)), PlainRules(d, s, msg, payload))
  {
    var revision, revisionRules :=
      One(msg.proofHeight.revisionNumber == s.client.latestHeight.revisionNumber, ProofHeightMismatch);
    var check, rules := One(false, MalformedAbi);
    if payload.Some? {
      var m := payload.value;
      var key, keyRules := One(m.sp1Proof.vKey == d.membershipVKey, VerificationKeyMismatch);
      if d.abi.membership(m.sp1Proof.publicValues).Some? {
        var o := d.abi.membership(m.sp1Proof.publicValues).value;
        check, rules := PlainOutputReasons(d, s, msg, m, o);
      }
      check, rules := Both(key, keyRules, check, rules);
    }
    check, rules := Both(revision, revisionRules, check, rules);
  }

  lemma PlainOutputReasons(
    d: Deployment, s: Store, msg: MsgMembership, m: SP1MembershipProof, o: MembershipOutput)
    returns (check: Check<Error>, rules: seq<Rule>)
    ensures rules == PlainOutputRules(d, s, msg, m, o) && Judges(check, rules)
    ensures check
            == Then(
                 Then(
                   Then(Need(1 <= |o.kvPairs| <= 256, LengthIsOutOfRange), Search(o.kvPairs, msg.path, msg.value)),
                   ValidateMembership(
                     s, o.commitmentRoot, msg.proofHeight.revisionHeight, m.trustedConsensusState)),
                 Verdict(Authenticate(d, s, m.sp1Proof, |o.kvPairs|)))
  {
    check, rules := One(1 <= |o.kvPairs| <= 256, LengthIsOutOfRange);
    if check.Pass? {
      PairReasons(o.kvPairs, msg.path, msg.value);
      ProofReasons(d, s, m.sp1Proof, |o.kvPairs|);
    }
    check, rules := Both(
      check, rules, Search(o.kvPairs, msg.path, msg.value), PairRules(o.kvPairs, msg.path, msg.value));
    var root, height := o.commitmentRoot, msg.proofHeight.revisionHeight;
    RootReasons(s, root, height, m.trustedConsensusState);
    check, rules := Both(
      check, rules, ValidateMembership(s, root, height, m.trustedConsensusState),
      RootRules(s, root, height, m.trustedConsensusState));
    check, rules := Both(
      check, rules, Verdict(Authenticate(d, s, m.sp1Proof, |o.kvPairs|)),
      ProofRules(d, s, m.sp1Proof, |o.kvPairs|));
  }

  lemma RootReasons(s: Store, root: Bytes32, height: uint32, trusted: ConsensusState)
    ensures Judges(ValidateMembership(s, root, height, trusted), RootRules(s, root, height, trusted))
  {
    var rules := RootRules(s, root, height, trusted);
    assert !rules[0].holds ==> FirstBroken(rules, 0);
    assert rules[0].holds && !rules[1].holds ==> FirstBroken(rules, 1);
    assert rules[0].holds && rules[1].holds && !rules[2].holds ==> FirstBroken(rules, 2);
  }

  lemma WithUpdateReasons(d: Deployment, s: Store, blockTime: nat, msg: MsgMembership, p: SP1Proof)
    ensures Judges(
              Verdict(ExecuteWithUpdate(d, s, blockTime, msg, Some(p))), WithUpdateRules(d, s, blockTime, msg, p))
  {
    var key, keyRules := One(p.vKey == d.ucAndMembershipVKey, VerificationKeyMismatch);
    var check, rules := One(false, MalformedAbi);
    if d.abi.ucAndMembership(p.publicValues).Some? {
      var o := d.abi.ucAndMembership(p.publicValues).value;
      var u, pairs := o.updateClientOutput, o.kvPairs;
      check, rules := One(1 <= |pairs| <= 256, LengthIsOutOfRange);
      if check.Pass? {
        PairReasons(pairs, msg.path, msg.value);
        ProofReasons(d, s, p, |pairs|);
      }
      CurrentReasons(s, blockTime, u);
      var height, heightRules := One(msg.proofHeight == u.newHeight, ProofHeightMismatch);
      check, rules := Both(check, rules, height, heightRules);
      check, rules := Both(check, rules, ValidateUpdate(s, blockTime, u), CurrentRules(s, blockTime, u));
      check, rules := Both(check, rules, Verdict(Authenticate(d, s, p, |pairs|)), ProofRules(d, s, p, |pairs|));
      var quiet, quietRules := One(!Contradicts(s, u), CannotHandleMisbehavior);
      check, rules := Both(check, rules, quiet, quietRules);
      check, rules := Both(
        check, rules, Search(pairs, msg.path, msg.value), PairRules(pairs, msg.path, msg.value));
    }
    check, rules := Both(key, keyRules, check, rules);
  }

  /** A call succeeds exactly when it meets all its rules, and reverts for the first that it breaks. */
  lemma RevertReasons(d: Deployment, s: Store, e: Event)
    ensures Step(d, s, e).result.Ok? <==> Met(Rules(d, s, e))
    ensures forall error :: Step(d, s, e).result == Err(error) <==> Broken(Rules(d, s, e), error)
  {
    var check, rules := One(false, MalformedAbi);
    match e.call {
      case UpdateClient(msg) =>
        if msg.Some? {
          UpdateReasons(d, s, e.blockTime, msg.value);
        }
      case SubmitMisbehaviour(msg) =>
        if msg.Some? {
          MisbehaviourReasons(d, s, e.blockTime, msg.value);
        }
      case Membership(msg) =>
        match msg.proof {
          case Some(Plain(payload)) => PlainReasons(d, s, msg, payload);
          case Some(WithUpdate(Some(p))) => WithUpdateReasons(d, s, e.blockTime, msg, p);
          case _ =>
        }
    }
    JudgesExactly(Verdict(Step(d, s, e).result), Rules(d, s, e));
  }
}
