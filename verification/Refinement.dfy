/** The contract refines the ICS-07 client, whatever its genesis word and whatever calls it receives; and its
    cache of verified proofs cannot be observed. */
module Refinement {
  import opened Wrappers
  import opened Msgs
  import opened ClientSpec
  import opened Ics07Client

  /** Where the full client holds a state the contract holds its digest, and elsewhere no digest of a state.
      A client that knows any state has nothing but zero words elsewhere. */
  ghost predicate Refines(s: Store, a: FullClient) {
    && s.client == a.client
    && (forall h: uint32 :: h in a.states ==> HashAt(s, h) == ConsensusStateHash(a.states[h]))
    && (forall h: uint32 :: h !in a.states ==> !HashAt(s, h).ConsensusStateHash?)
    && (a.states == map[] || forall h: uint32 :: h !in a.states ==> HashAt(s, h) == Zero)
  }

  /** Every cached digest is that of a proof the verifier accepts. */
  ghost predicate CacheSound(d: Deployment, s: Store) {
    forall p :: ProofHash(p) in s.verified ==> d.accepts(p)
  }

  ghost predicate SameAnswer(r: Result<Returned, Error>, o: Option<Returned>) {
    match r
    case Ok(v) => o == Some(v)
    case Err(_) => o == None
  }

  lemma UpdateRefines(d: Deployment, s: Store, a: FullClient, blockTime: nat, msg: Option<SP1Proof>)
    requires Refines(s, a)
    ensures var e := Event(blockTime, UpdateClient(msg));
            SameAnswer(Step(d, s, e).result, Respond(d, a, e).returned)
            && Refines(Step(d, s, e).post, Respond(d, a, e).post)
            && Step(d, s, e).post.verified == s.verified
  {
  }

  lemma PlainRefines(
    d: Deployment, s: Store, a: FullClient, blockTime: nat, msg: MsgMembership, payload: Option<SP1MembershipProof>)
    requires Refines(s, a) && CacheSound(d, s) && msg.proof == Some(Plain(payload))
    ensures var e := Event(blockTime, Membership(msg));
            SameAnswer(Step(d, s, e).result, Respond(d, a, e).returned)
            && Refines(Step(d, s, e).post, Respond(d, a, e).post)
            && CacheSound(d, Step(d, s, e).post)
  {
  }

  lemma WithUpdateRefines(
    d: Deployment, s: Store, a: FullClient, blockTime: nat, msg: MsgMembership, payload: Option<SP1Proof>)
    requires Refines(s, a) && CacheSound(d, s) && msg.proof == Some(WithUpdate(payload))
    ensures var e := Event(blockTime, Membership(msg));
            SameAnswer(Step(d, s, e).result, Respond(d, a, e).returned)
            && Refines(Step(d, s, e).post, Respond(d, a, e).post)
            && CacheSound(d, Step(d, s, e).post)
  {
  }

  lemma MisbehaviourRefines(d: Deployment, s: Store, a: FullClient, blockTime: nat, msg: Option<SP1Proof>)
    requires Refines(s, a)
    ensures var e := Event(blockTime, SubmitMisbehaviour(msg));
            SameAnswer(Step(d, s, e).result, Respond(d, a, e).returned)
            && Refines(Step(d, s, e).post, Respond(d, a, e).post)
            && Step(d, s, e).post.verified == s.verified
  {
  }

  /** One call: same answer, and the relation holds again. */
  lemma StepRefines(d: Deployment, s: Store, a: FullClient, e: Event)
    requires Refines(s, a) && CacheSound(d, s)
    ensures SameAnswer(Step(d, s, e).result, Respond(d, a, e).returned)
    ensures Refines(Step(d, s, e).post, Respond(d, a, e).post)
    ensures CacheSound(d, Step(d, s, e).post)
  {
    match e.call {
      case UpdateClient(msg) =>
        UpdateRefines(d, s, a, e.blockTime, msg);
      case Membership(msg) =>
        match msg.proof {
          case None =>
          case Some(Plain(payload)) =>
            PlainRefines(d, s, a, e.blockTime, msg, payload);
          case Some(WithUpdate(payload)) =>
            WithUpdateRefines(d, s, a, e.blockTime, msg, payload);
        }
      case SubmitMisbehaviour(msg) =>
        MisbehaviourRefines(d, s, a, e.blockTime, msg);
    }
  }

  lemma {:induction false} RunRefines(d: Deployment, client: ClientState, genesis: Digest, es: seq<Event>)
    ensures Refines(Run(d, Genesis(client, genesis), es), History(d, Initial(client, genesis), es))
    ensures CacheSound(d, Run(d, Genesis(client, genesis), es))
  {
    if es != [] {
      var before := es[..|es| - 1];
      RunRefines(d, client, genesis, before);
      StepRefines(d, Run(d, Genesis(client, genesis), before), History(d, Initial(client, genesis), before),
                  es[|es| - 1]);
    }
  }

  /** Every call of every run, reverted ones included, gets the full client's answer, and the stored words are
      the digests of the full client's states. */
  lemma ForwardSimulation(d: Deployment, client: ClientState, genesis: Digest, es: seq<Event>)
    ensures Refines(Run(d, Genesis(client, genesis), es), History(d, Initial(client, genesis), es))
    ensures forall i :: 0 <= i < |es| ==>
              SameAnswer(ResultAt(d, Genesis(client, genesis), es, i),
                         Respond(d, History(d, Initial(client, genesis), es[..i]), es[i]).returned)
  {
    RunRefines(d, client, genesis, es);
    forall i | 0 <= i < |es|
      ensures SameAnswer(ResultAt(d, Genesis(client, genesis), es, i),
                         Respond(d, History(d, Initial(client, genesis), es[..i]), es[i]).returned)
    {
      RunRefines(d, client, genesis, es[..i]);
      StepRefines(d, Run(d, Genesis(client, genesis), es[..i]), History(d, Initial(client, genesis), es[..i]), es[i]);
    }
  }

  /* The cache. */

  /** The contract without a cache: whatever a call caches is gone before the next one. */
  function UncachedRun(d: Deployment, s: Store, es: seq<Event>): Store {
    if es == [] then s.(verified := {})
    else Step(d, UncachedRun(d, s, es[..|es| - 1]), es[|es| - 1]).post.(verified := {})
  }

  /** Two storages that differ only in which accepted proofs they have cached. */
  ghost predicate Alike(d: Deployment, s: Store, t: Store) {
    CacheSound(d, s) && CacheSound(d, t) && s.client == t.client && s.hashes == t.hashes
  }

  ghost predicate AlikeTx(d: Deployment, x: Tx, y: Tx) {
    x.result == y.result && Alike(d, x.post, y.post)
  }

  lemma AlikePlain(d: Deployment, s: Store, t: Store, msg: MsgMembership, payload: Option<SP1MembershipProof>)
    requires Alike(d, s, t)
    ensures var x, y := ExecutePlain(d, s, msg, payload), ExecutePlain(d, t, msg, payload);
            if x.Ok? then y.Ok? && x.value.0 == y.value.0 && Alike(d, x.value.1, y.value.1) else y == x
  {
  }

  lemma AlikeWithUpdate(
    d: Deployment, s: Store, t: Store, blockTime: nat, msg: MsgMembership, payload: Option<SP1Proof>)
    requires Alike(d, s, t)
    ensures var x := ExecuteWithUpdate(d, s, blockTime, msg, payload);
            var y := ExecuteWithUpdate(d, t, blockTime, msg, payload);
            if x.Ok? then y.Ok? && x.value.0 == y.value.0 && Alike(d, x.value.1, y.value.1) else y == x
  {
  }

  /** Such storages give the same answer, and stay alike. */
  lemma CacheUnobservable(d: Deployment, s: Store, t: Store, e: Event)
    requires Alike(d, s, t)
    ensures AlikeTx(d, Step(d, s, e), Step(d, t, e))
  {
    match e.call {
      case UpdateClient(msg) =>
      case Membership(msg) =>
        match msg.proof {
          case None =>
          case Some(Plain(payload)) =>
            AlikePlain(d, s, t, msg, payload);
          case Some(WithUpdate(payload)) =>
            AlikeWithUpdate(d, s, t, e.blockTime, msg, payload);
        }
      case SubmitMisbehaviour(msg) =>
    }
  }

  /** In every reachable state, every cached digest is that of an accepted proof. */
  lemma ReachableCacheSound(d: Deployment, client: ClientState, genesis: Digest, es: seq<Event>)
    ensures CacheSound(d, Run(d, Genesis(client, genesis), es))
  {
    RunRefines(d, client, genesis, es);
  }

  /** The proof that a membership message carries, if it is for several pairs. */
  function BatchProof(d: Deployment, msg: MsgMembership): Option<SP1Proof> {
    match msg.proof
    case Some(Plain(Some(m))) =>
      (match d.abi.membership(m.sp1Proof.publicValues)
       case Some(o) => if |o.kvPairs| > 1 then Some(m.sp1Proof) else None
       case None => None)
    case Some(WithUpdate(Some(p))) =>
      (match d.abi.ucAndMembership(p.publicValues)
       case Some(o) => if |o.kvPairs| > 1 then Some(p) else None
       case None => None)
    case _ => None
  }

  predicate Caches(d: Deployment, s: Store, e: Event, p: SP1Proof) {
    e.call.Membership? && BatchProof(d, e.call.membershipMsg) == Some(p) && Step(d, s, e).result.Ok?
  }

  lemma StepCaches(d: Deployment, s: Store, e: Event, p: SP1Proof)
    ensures ProofHash(p) in Step(d, s, e).post.verified <==> ProofHash(p) in s.verified || Caches(d, s, e, p)
  {
  }

  ghost predicate CachesAt(d: Deployment, s: Store, es: seq<Event>, i: nat, p: SP1Proof) {
    i < |es| && Caches(d, Run(d, s, es[..i]), es[i], p)
  }

  /** A proof is cached exactly when some successful membership call of the run carried it for several pairs. */
  lemma {:induction false} CachedExactly(
    d: Deployment, client: ClientState, genesis: Digest, es: seq<Event>, p: SP1Proof)
    ensures var g := Genesis(client, genesis);
            ProofHash(p) in Run(d, g, es).verified <==> exists i: nat :: CachesAt(d, g, es, i, p)
  {
    if es != [] {
      var g, n := Genesis(client, genesis), |es| - 1;
      var before := es[..n];
      CachedExactly(d, client, genesis, before, p);
      StepCaches(d, Run(d, g, before), es[n], p);
      forall i: nat
        ensures CachesAt(d, g, es, i, p) <==>
                  CachesAt(d, g, before, i, p) || (i == n && Caches(d, Run(d, g, before), es[n], p))
      {
        if i < n {
          assert before[..i] == es[..i];
        }
      }
      assert CachesAt(d, g, es, n, p) <==> Caches(d, Run(d, g, before), es[n], p);
      assert forall i: nat :: CachesAt(d, g, before, i, p) ==> CachesAt(d, g, es, i, p);
    }
  }

  lemma {:induction false} UncachedRunAlike(d: Deployment, s: Store, es: seq<Event>)
    requires CacheSound(d, s)
    ensures Alike(d, Run(d, s, es), UncachedRun(d, s, es))
  {
    if es != [] {
      var n := |es| - 1;
      UncachedRunAlike(d, s, es[..n]);
      CacheUnobservable(d, Run(d, s, es[..n]), UncachedRun(d, s, es[..n]), es[n]);
    }
  }

  /** Over every run, the contract that caches and the one that always asks the verifier return the same
      results and hold the same client state and hashes. */
  lemma CacheTransparency(d: Deployment, client: ClientState, genesis: Digest, es: seq<Event>)
    ensures UncachedRun(d, Genesis(client, genesis), es) == Run(d, Genesis(client, genesis), es).(verified := {})
    ensures forall i :: 0 <= i < |es| ==>
              ResultAt(d, Genesis(client, genesis), es, i)
              == Step(d, UncachedRun(d, Genesis(client, genesis), es[..i]), es[i]).result
  {
    var g := Genesis(client, genesis);
    UncachedRunAlike(d, g, es);
    forall i | 0 <= i < |es|
      ensures ResultAt(d, g, es, i) == Step(d, UncachedRun(d, g, es[..i]), es[i]).result
    {
      UncachedRunAlike(d, g, es[..i]);
      CacheUnobservable(d, Run(d, g, es[..i]), UncachedRun(d, g, es[..i]), es[i]);
    }
  }
}
