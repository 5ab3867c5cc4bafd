/** What every run of the contract keeps, and when it freezes. Nothing here depends on what the programs prove. */
module Invariants {
  import opened Wrappers
  import opened Msgs
  import opened ClientSpec

  /** Stored words stay, cached proofs stay, parameters stay, the latest height does not go back, a frozen
      client stays as it is. */
  ghost predicate Extends(s: Store, t: Store) {
    && (forall h: uint32 :: HashAt(s, h) != Zero ==> HashAt(t, h) == HashAt(s, h))
    && s.verified <= t.verified
    && t.client == s.client.(latestHeight := t.client.latestHeight, isFrozen := t.client.isFrozen)
    && s.client.latestHeight.revisionHeight <= t.client.latestHeight.revisionHeight
    && (s.client.isFrozen ==> t == s)
  }

  /** The latest height is the greatest of the stored ones. */
  ghost predicate LatestIsGreatest(s: Store) {
    && HashAt(s, s.client.latestHeight.revisionHeight) != Zero
    && forall h: uint32 :: HashAt(s, h) != Zero ==> h <= s.client.latestHeight.revisionHeight
  }

  ghost predicate Keeps(s: Store, r: Result<(Returned, Store), Error>) {
    r.Ok? ==>
      && !s.client.isFrozen
      && Extends(s, r.value.1)
      && (LatestIsGreatest(s) ==> LatestIsGreatest(r.value.1))
  }

  lemma UpdateKeeps(d: Deployment, s: Store, blockTime: nat, msg: Option<SP1Proof>)
    ensures Keeps(s, ExecuteUpdate(d, s, blockTime, msg))
  {
  }

  lemma MembershipKeeps(d: Deployment, s: Store, blockTime: nat, msg: MsgMembership)
    ensures Keeps(s, ExecuteMembership(d, s, blockTime, msg))
  {
  }

  lemma StepExtends(d: Deployment, s: Store, e: Event)
    ensures Extends(s, Step(d, s, e).post)
    ensures LatestIsGreatest(s) ==> LatestIsGreatest(Step(d, s, e).post)
    ensures s.client.isFrozen ==> Step(d, s, e).result.Err?
  {
    match e.call {
      case UpdateClient(msg) => UpdateKeeps(d, s, e.blockTime, msg);
      case Membership(msg) => MembershipKeeps(d, s, e.blockTime, msg);
      case SubmitMisbehaviour(msg) =>
    }
  }

  /** Running a list in two parts. */
  lemma {:induction false} RunAppend(d: Deployment, s: Store, before: seq<Event>, after: seq<Event>)
    ensures Run(d, s, before + after) == Run(d, Run(d, s, before), after)
  {
    if after == [] {
      assert before + after == before;
    } else {
      var n := |after| - 1;
      RunAppend(d, s, before, after[..n]);
      assert (before + after)[..|before| + n] == before + after[..n];
    }
  }

  lemma {:induction false} RunExtends(d: Deployment, s: Store, es: seq<Event>)
    ensures Extends(s, Run(d, s, es))
    ensures LatestIsGreatest(s) ==> LatestIsGreatest(Run(d, s, es))
  {
    if es != [] {
      RunExtends(d, s, es[..|es| - 1]);
      StepExtends(d, Run(d, s, es[..|es| - 1]), es[|es| - 1]);
    }
  }

  /** The same between any two points of one run. */
  lemma RunMonotone(d: Deployment, s: Store, es: seq<Event>, i: nat, j: nat)
    requires i <= j <= |es|
    ensures Extends(Run(d, s, es[..i]), Run(d, s, es[..j]))
  {
    assert es[..j] == es[..i] + es[i..j];
    RunAppend(d, s, es[..i], es[i..j]);
    RunExtends(d, Run(d, s, es[..i]), es[i..j]);
  }

  /** From a nonzero genesis word, at all points of every run. */
  lemma MapInvariants(d: Deployment, client: ClientState, genesis: Digest, es: seq<Event>)
    requires genesis != Zero
    ensures var g := Genesis(client, genesis);
            && LatestIsGreatest(Run(d, g, es))
            && HashAt(Run(d, g, es), client.latestHeight.revisionHeight) == genesis
            && forall i, j :: 0 <= i <= j <= |es| ==> Extends(Run(d, g, es[..i]), Run(d, g, es[..j]))
  {
    var g := Genesis(client, genesis);
    assert HashAt(g, client.latestHeight.revisionHeight) == genesis;
    RunExtends(d, g, es);
    forall i, j | 0 <= i <= j <= |es|
      ensures Extends(Run(d, g, es[..i]), Run(d, g, es[..j]))
    {
      RunMonotone(d, g, es, i, j);
    }
  }

  /* What a client can do at all, as it was deployed: the constructor checks nothing. */

  ghost predicate KnowsNothing(s: Store) {
    forall h: uint32 :: !HashAt(s, h).ConsensusStateHash?
  }

  lemma StepFromNothing(d: Deployment, s: Store, e: Event)
    requires KnowsNothing(s)
    ensures Step(d, s, e).result.Err? && Step(d, s, e).post == s
  {
  }

  ghost predicate SucceedsAt(d: Deployment, s: Store, es: seq<Event>, i: nat) {
    i < |es| && ResultAt(d, s, es, i).Ok?
  }

  lemma {:induction false} StuckRun(d: Deployment, s: Store, es: seq<Event>)
    requires KnowsNothing(s) || s.client.isFrozen
    ensures Run(d, s, es) == s
    ensures forall i: nat :: !SucceedsAt(d, s, es, i)
  {
    forall i: nat | i <= |es|
      ensures Run(d, s, es[..i]) == s
    {
      StuckPrefix(d, s, es[..i]);
    }
    assert es[..|es|] == es;
    forall i: nat
      ensures !SucceedsAt(d, s, es, i)
    {
      if i < |es| {
        assert Run(d, s, es[..i]) == s;
        StepExtends(d, s, es[i]);
        if KnowsNothing(s) {
          StepFromNothing(d, s, es[i]);
        }
      }
    }
  }

  lemma {:induction false} StuckPrefix(d: Deployment, s: Store, es: seq<Event>)
    requires KnowsNothing(s) || s.client.isFrozen
    ensures Run(d, s, es) == s
  {
    if es != [] {
      StuckPrefix(d, s, es[..|es| - 1]);
      StepExtends(d, s, es[|es| - 1]);
      if KnowsNothing(s) {
        StepFromNothing(d, s, es[|es| - 1]);
      }
    }
  }

  /** Some call of some run can succeed exactly when the genesis word is the digest of a consensus state and the client
      is not deployed frozen. Otherwise every call reverts for ever. */
  lemma AliveExactly(client: ClientState, genesis: Digest)
    ensures (exists d, es, i: nat :: SucceedsAt(d, Genesis(client, genesis), es, i)) <==>
              genesis.ConsensusStateHash? && !client.isFrozen
  {
    var g := Genesis(client, genesis);
    if genesis.ConsensusStateHash? && !client.isFrozen {
      var cs := genesis.consensusState;
      var pairs := [KVPair([], [])];
      var word: Bytes32 := seq(32, _ => 0);
      var d := Deployment(word, word, word, word, _ => true,
                          Abi(_ => None, _ => Some(MembershipOutput(cs.root, pairs)), _ => None, _ => None));
      var proof := Plain(Some(SP1MembershipProof(SP1Proof(word, [], []), cs)));
      var e := Event(0, Membership(MsgMembership(Some(proof), client.latestHeight, [], [])));
      assert [e][..0] == [];
      assert Run(d, g, []) == g;
      assert pairs[0] == KVPair([], []);
      assert SucceedsAt(d, g, [e], 0);
    } else if d, es, i: nat :| SucceedsAt(d, g, es, i) {
      StuckRun(d, g, es);
    }
  }

  lemma NoEnvPasses(client: ClientState, blockTime: nat, env: Env)
    requires client.trustingPeriod > client.unbondingPeriod
    ensures ValidateEnv(client, blockTime, env).Fail?
  {
  }

  lemma {:induction false} UnchangeableRun(d: Deployment, s: Store, es: seq<Event>)
    requires s.client.trustingPeriod > s.client.unbondingPeriod
    ensures Run(d, s, es).client == s.client && Run(d, s, es).hashes == s.hashes
  {
    if es != [] {
      UnchangeableRun(d, s, es[..|es| - 1]);
    }
  }

  ghost predicate Changes(d: Deployment, s: Store, es: seq<Event>) {
    Run(d, s, es).client != s.client || Run(d, s, es).hashes != s.hashes
  }

  /** Some run can change the client state or the stored hashes exactly when, besides, the trusting period is no longer
      than the unbonding period. */
  lemma ChangeableExactly(client: ClientState, genesis: Digest)
    ensures (exists d, es :: Changes(d, Genesis(client, genesis), es)) <==>
              && genesis.ConsensusStateHash? && !client.isFrozen
              && client.trustingPeriod <= client.unbondingPeriod
  {
    var g := Genesis(client, genesis);
    if genesis.ConsensusStateHash? && !client.isFrozen && client.trustingPeriod <= client.unbondingPeriod {
      var cs := genesis.consensusState;
      var word: Bytes32 := seq(32, _ => 0);
      var env := Env(client.chainId, client.trustLevel, client.trustingPeriod, 0);
      var o := MisbehaviourOutput(env, client.latestHeight, client.latestHeight, cs, cs);
      var d := Deployment(word, word, word, word, _ => true,
                          Abi(_ => None, _ => None, _ => None, _ => Some(o)));
      var e := Event(0, SubmitMisbehaviour(Some(SP1Proof(word, [], []))));
      assert [e][..0] == [];
      assert Run(d, g, []) == g;
      assert Step(d, g, e).post == Freeze(g);
      assert Changes(d, g, [e]);
    } else if d, es :| Changes(d, g, es) {
      if client.trustingPeriod > client.unbondingPeriod {
        UnchangeableRun(d, g, es);
      } else {
        StuckRun(d, g, es);
      }
    }
  }

  /* Freezing. */

  predicate Current(s: Store, blockTime: nat, env: Env) {
    !s.client.isFrozen && ValidateEnv(s.client, blockTime, env).Pass?
  }

  predicate Stored(s: Store, height: Height, cs: ConsensusState) {
    HashAt(s, height.revisionHeight) == ConsensusStateHash(cs)
  }

  /** A proven header at a height that already holds another state, or whose seconds do not pass the trusted ones. */
  predicate ConflictingUpdate(d: Deployment, s: Store, blockTime: nat, p: SP1Proof) {
    p.vKey == d.updateClientVKey && d.accepts(p)
    && match d.abi.updateClient(p.publicValues)
       case None => false
       case Some(o) =>
         && Current(s, blockTime, o.env)
         && Stored(s, o.trustedHeight, o.trustedConsensusState)
         && HashAt(s, o.newHeight.revisionHeight) != Zero
         && (!Stored(s, o.newHeight, o.newConsensusState)
             || o.newConsensusState.timestamp <= o.trustedConsensusState.timestamp)
  }

  /** A proof of misbehaviour between two headers, each verified from a stored state. */
  predicate MisbehaviourFromStored(d: Deployment, s: Store, blockTime: nat, p: SP1Proof) {
    p.vKey == d.misbehaviourVKey && d.accepts(p)
    && match d.abi.misbehaviour(p.publicValues)
       case None => false
       case Some(o) =>
         && Current(s, blockTime, o.env)
         && Stored(s, o.trustedHeight1, o.trustedConsensusState1)
         && Stored(s, o.trustedHeight2, o.trustedConsensusState2)
  }

  predicate FreezingEvidence(d: Deployment, s: Store, e: Event) {
    match e.call
    case UpdateClient(Some(p)) => ConflictingUpdate(d, s, e.blockTime, p)
    case SubmitMisbehaviour(Some(p)) => MisbehaviourFromStored(d, s, e.blockTime, p)
    case _ => false
  }

  lemma StepFreezes(d: Deployment, s: Store, e: Event)
    ensures Step(d, s, e).post.client.isFrozen <==> s.client.isFrozen || FreezingEvidence(d, s, e)
    ensures FreezingEvidence(d, s, e) ==>
              Step(d, s, e) == Tx(Ok(if e.call.UpdateClient? then Updated(Misbehaviour) else Frozen), Freeze(s))
  {
  }

  ghost predicate FreezingEvidenceAt(d: Deployment, s: Store, es: seq<Event>, i: nat) {
    i < |es| && FreezingEvidence(d, Run(d, s, es[..i]), es[i])
  }

  /** A client is frozen exactly when it was at genesis or some call of its run brought evidence. A membership
      call never is evidence. */
  lemma {:induction false} FrozenExactlyOnEvidence(d: Deployment, s: Store, es: seq<Event>)
    ensures Run(d, s, es).client.isFrozen <==> s.client.isFrozen || exists i: nat :: FreezingEvidenceAt(d, s, es, i)
  {
    if es != [] {
      var n := |es| - 1;
      var before := es[..n];
      FrozenExactlyOnEvidence(d, s, before);
      StepFreezes(d, Run(d, s, before), es[n]);
      forall i: nat
        ensures FreezingEvidenceAt(d, s, es, i) <==>
                  || FreezingEvidenceAt(d, s, before, i)
                  || (i == n && FreezingEvidence(d, Run(d, s, before), es[n]))
      {
        if i < n {
          assert before[..i] == es[..i];
        }
      }
      assert FreezingEvidenceAt(d, s, es, n) <==> FreezingEvidence(d, Run(d, s, before), es[n]);
      assert forall i: nat :: FreezingEvidenceAt(d, s, before, i) ==> FreezingEvidenceAt(d, s, es, i);
    }
  }

  /** Once frozen, every call reverts and storage is what it was. */
  lemma {:induction false} FrozenIsFinal(d: Deployment, s: Store, es: seq<Event>)
    requires s.client.isFrozen
    ensures Run(d, s, es) == s
    ensures forall i :: 0 <= i < |es| ==> ResultAt(d, s, es, i).Err?
  {
    forall i | 0 <= i <= |es|
      ensures Run(d, s, es[..i]) == s
    {
      RunExtends(d, s, es[..i]);
    }
    assert es[..|es|] == es;
    forall i | 0 <= i < |es|
      ensures ResultAt(d, s, es, i).Err?
    {
      StepExtends(d, s, es[i]);
    }
  }
}
