/** Contract and programs together, over whole runs. */
module EndToEnd {
  import opened Wrappers
  import opened Msgs
  import opened ClientSpec
  import opened Invariants
  import opened ProgramTypes
  import opened Meaning
  import opened Conversions
  import opened Programs
  import R = Refinement
  import S = Soundness
  import C = Composition
  import Commits

  /* The trust chain. */

  /** What a call that stores a state at h was given: an accepted update from a state already stored. */
  ghost predicate Justifies(d: Deployment, s: Store, blockTime: nat, h: uint32, o: UpdateClientOutput) {
    && S.AcceptedUpdate(d, o)
    && Current(s, blockTime, o.env)
    && Stored(s, o.trustedHeight, o.trustedConsensusState)
    && o.newHeight.revisionHeight == h
  }

  lemma NewStateIsJustified(d: Deployment, s: Store, e: Event, h: uint32) returns (o: UpdateClientOutput)
    requires R.CacheSound(d, s)
    requires HashAt(s, h) == Zero && HashAt(Step(d, s, e).post, h) != Zero
    ensures Justifies(d, s, e.blockTime, h, o)
    ensures Step(d, s, e).post.hashes == s.hashes[h := ConsensusStateHash(o.newConsensusState)]
    ensures Step(d, s, e).post.client
            == if h > s.client.latestHeight.revisionHeight
               then s.client.(latestHeight := o.newHeight) else s.client
  {
    match e.call {
      case UpdateClient(msg) =>
        var p := msg.value;
        o := d.abi.updateClient(p.publicValues).value;
        assert S.CarriesUpdate(d, p, o);
      case Membership(msg) =>
        var p := msg.proof.value.withUpdate.value;
        o := d.abi.ucAndMembership(p.publicValues).value.updateClientOutput;
        assert S.CarriesUpdate(d, p, o);
      case SubmitMisbehaviour(msg) =>
        assert false;
    }
  }

  /** A list of accepted updates from the state cs0 at h0 to the state cs at h, each starting where the one before
      it ended, with every state on the way stored. */
  ghost predicate Chain(
    d: Deployment, s: Store, h0: uint32, cs0: ConsensusState, os: seq<UpdateClientOutput>, h: uint32,
    cs: ConsensusState)
    decreases |os|
  {
    && HashAt(s, h) == ConsensusStateHash(cs)
    && if os == [] then h == h0 && cs == cs0
       else
         var o := os[|os| - 1];
         && S.AcceptedUpdate(d, o)
         && o.env.chainId == s.client.chainId
         && o.newHeight.revisionHeight == h && o.newConsensusState == cs
         && Chain(d, s, h0, cs0, os[..|os| - 1], o.trustedHeight.revisionHeight, o.trustedConsensusState)
  }

  lemma {:induction false} ChainPersists(
    d: Deployment, s: Store, t: Store, h0: uint32, cs0: ConsensusState, os: seq<UpdateClientOutput>, h: uint32,
    cs: ConsensusState)
    requires Chain(d, s, h0, cs0, os, h, cs) && Extends(s, t)
    ensures Chain(d, t, h0, cs0, os, h, cs)
    decreases |os|
  {
    assert HashAt(s, h) != Zero;
    if os != [] {
      var o := os[|os| - 1];
      ChainPersists(d, s, t, h0, cs0, os[..|os| - 1], o.trustedHeight.revisionHeight, o.trustedConsensusState);
    }
  }

  /** In every reachable state, every stored hash is reached from genesis by a chain of accepted updates. */
  lemma {:induction false} TrustChain(
    d: Deployment, client: ClientState, cs0: ConsensusState, es: seq<Event>, h: uint32)
    returns (os: seq<UpdateClientOutput>, cs: ConsensusState)
    requires HashAt(Run(d, Genesis(client, ConsensusStateHash(cs0)), es), h) != Zero
    ensures Chain(d, Run(d, Genesis(client, ConsensusStateHash(cs0)), es),
                  client.latestHeight.revisionHeight, cs0, os, h, cs)
    decreases |es|
  {
    var g := Genesis(client, ConsensusStateHash(cs0));
    var h0 := client.latestHeight.revisionHeight;
    if es == [] {
      os, cs := [], cs0;
    } else {
      var before := es[..|es| - 1];
      var s, e := Run(d, g, before), es[|es| - 1];
      StepExtends(d, s, e);
      if HashAt(s, h) != Zero {
        os, cs := TrustChain(d, client, cs0, before, h);
        ChainPersists(d, s, Step(d, s, e).post, h0, cs0, os, h, cs);
      } else {
        R.ReachableCacheSound(d, client, ConsensusStateHash(cs0), before);
        var o := NewStateIsJustified(d, s, e, h);
        var trusted;
        os, trusted := TrustChain(d, client, cs0, before, o.trustedHeight.revisionHeight);
        ChainPersists(d, s, Step(d, s, e).post, h0, cs0, os, o.trustedHeight.revisionHeight, trusted);
        assert (os + [o])[..|os|] == os;
        os, cs := os + [o], o.newConsensusState;
      }
    }
  }

  /** A chain starts at genesis, and each of its accepted updates starts where the one before it ended. */
  lemma {:induction false} ChainLinks(
    d: Deployment, s: Store, h0: uint32, cs0: ConsensusState, os: seq<UpdateClientOutput>, h: uint32,
    cs: ConsensusState)
    requires Chain(d, s, h0, cs0, os, h, cs)
    ensures forall o :: o in os ==> S.AcceptedUpdate(d, o) && o.env.chainId == s.client.chainId
    ensures os != [] ==> os[0].trustedHeight.revisionHeight == h0 && os[0].trustedConsensusState == cs0
    ensures forall i :: 0 < i < |os| ==>
              && os[i].trustedHeight.revisionHeight == os[i - 1].newHeight.revisionHeight
              && os[i].trustedConsensusState == os[i - 1].newConsensusState
    decreases |os|
  {
    if os != [] {
      var n := |os| - 1;
      ChainLinks(d, s, h0, cs0, os[..n], os[n].trustedHeight.revisionHeight, os[n].trustedConsensusState);
      assert os == os[..n] + [os[n]];
    }
  }

  lemma {:induction false} ValidChainRises(
    d: Deployment, lib: Library, s: Store, h0: uint32, cs0: ConsensusState, os: seq<UpdateClientOutput>, h: uint32,
    cs: ConsensusState)
    requires Chain(d, s, h0, cs0, os, h, cs) && forall o :: o in os ==> S.ValidUpdate(lib, o)
    ensures h0 + |os| <= h && cs0.timestamp <= cs.timestamp
    ensures forall o :: o in os ==> o.newHeight.revisionHeight <= h
    decreases |os|
  {
    if os != [] {
      var n := |os| - 1;
      ValidChainRises(d, lib, s, h0, cs0, os[..n], os[n].trustedHeight.revisionHeight, os[n].trustedConsensusState);
      assert os[n] in os && os == os[..n] + [os[n]];
    }
  }

  /** With sound proofs every update of a chain is valid: heights strictly rise along it, seconds do not fall, and
      all revision numbers are the chain's. */
  lemma ChainAscends(
    d: Deployment, lib: Library, c: Codec, s: Store, h0: uint32, cs0: ConsensusState, os: seq<UpdateClientOutput>,
    h: uint32, cs: ConsensusState)
    requires S.Sound(d, lib, c) && S.VerifiesHeaders(lib)
    requires Chain(d, s, h0, cs0, os, h, cs)
    ensures h0 + |os| <= h && cs0.timestamp <= cs.timestamp
    ensures forall o :: o in os ==> S.ValidUpdate(lib, o) && o.newHeight.revisionHeight <= h
  {
    ChainLinks(d, s, h0, cs0, os, h, cs);
    forall o | o in os
      ensures S.ValidUpdate(lib, o)
    {
      S.AcceptedUpdateIsValid(d, lib, c, o);
    }
    ValidChainRises(d, lib, s, h0, cs0, os, h, cs);
  }

  /** Hence no state is stored below genesis, none is older than it, and only genesis is at its height. */
  lemma GenesisIsLeast(
    d: Deployment, lib: Library, c: Codec, client: ClientState, cs0: ConsensusState, es: seq<Event>, h: uint32,
    cs: ConsensusState)
    requires S.Sound(d, lib, c) && S.VerifiesHeaders(lib)
    requires HashAt(Run(d, Genesis(client, ConsensusStateHash(cs0)), es), h) == ConsensusStateHash(cs)
    ensures client.latestHeight.revisionHeight <= h
    ensures cs0.timestamp <= cs.timestamp
    ensures h == client.latestHeight.revisionHeight ==> cs == cs0
  {
    var os, cs' := TrustChain(d, client, cs0, es, h);
    ChainAscends(d, lib, c, Run(d, Genesis(client, ConsensusStateHash(cs0)), es),
                 client.latestHeight.revisionHeight, cs0, os, h, cs');
  }

  /** The client has its chain's revision number, or has stored nothing but its genesis height. */
  ghost predicate RevisionSettled(lib: Library, s: Store) {
    || s.client.latestHeight.revisionNumber == lib.revisionNumber(s.client.chainId)
    || forall h: uint32 :: HashAt(s, h) != Zero ==> h == s.client.latestHeight.revisionHeight
  }

  /** Whatever revision number a client is deployed with, its first recorded update sets it right, and it stays. */
  lemma {:induction false} RevisionSettles(
    d: Deployment, lib: Library, c: Codec, client: ClientState, genesis: Digest, es: seq<Event>)
    requires S.Sound(d, lib, c) && S.VerifiesHeaders(lib)
    ensures var s := Run(d, Genesis(client, genesis), es);
            && s.client.chainId == client.chainId
            && RevisionSettled(lib, s)
            && (s.client.latestHeight.revisionNumber == client.latestHeight.revisionNumber
                || s.client.latestHeight.revisionNumber == lib.revisionNumber(client.chainId))
  {
    if es != [] {
      var before := es[..|es| - 1];
      RevisionSettles(d, lib, c, client, genesis, before);
      R.ReachableCacheSound(d, client, genesis, before);
      RevisionStep(d, lib, c, Run(d, Genesis(client, genesis), before), es[|es| - 1]);
    }
  }

  lemma RevisionStep(d: Deployment, lib: Library, c: Codec, s: Store, e: Event)
    requires S.Sound(d, lib, c) && S.VerifiesHeaders(lib) && R.CacheSound(d, s) && RevisionSettled(lib, s)
    ensures var t := Step(d, s, e).post;
            && t.client.chainId == s.client.chainId
            && RevisionSettled(lib, t)
            && (t.client.latestHeight.revisionNumber == s.client.latestHeight.revisionNumber
                || t.client.latestHeight.revisionNumber == lib.revisionNumber(s.client.chainId))
  {
    var t := Step(d, s, e).post;
    StepExtends(d, s, e);
    if h: uint32 :| HashAt(s, h) == Zero && HashAt(t, h) != Zero {
      var o := NewStateIsJustified(d, s, e, h);
      S.AcceptedUpdateIsValid(d, lib, c, o);
      assert HashAt(s, o.trustedHeight.revisionHeight) != Zero;
    } else if t.client.latestHeight != s.client.latestHeight {
      var o := LatestHeightComesFrom(d, s, e);
      S.AcceptedUpdateIsValid(d, lib, c, o);
    }
  }

  lemma LatestHeightComesFrom(d: Deployment, s: Store, e: Event) returns (o: UpdateClientOutput)
    requires R.CacheSound(d, s) && Step(d, s, e).post.client.latestHeight != s.client.latestHeight
    ensures S.AcceptedUpdate(d, o) && o.env.chainId == s.client.chainId
    ensures Step(d, s, e).post.client.latestHeight == o.newHeight
  {
    match e.call {
      case UpdateClient(msg) =>
        var p := msg.value;
        o := d.abi.updateClient(p.publicValues).value;
        assert S.CarriesUpdate(d, p, o);
      case Membership(msg) =>
        var p := msg.proof.value.withUpdate.value;
        o := d.abi.ucAndMembership(p.publicValues).value.updateClientOutput;
        assert S.CarriesUpdate(d, p, o);
      case SubmitMisbehaviour(msg) =>
        assert false;
    }
  }

  /** On such a client an accepted and current update agrees with the revision. */
  lemma CombinedAtRevision(
    d: Deployment, lib: Library, c: Codec, s: Store, blockTime: nat, update: SP1Proof, u: UpdateClientOutput)
    requires S.Sound(d, lib, c) && S.VerifiesHeaders(lib) && RevisionSettled(lib, s)
    requires update.vKey == d.updateClientVKey && d.accepts(update) && C.UpdateOf(d, update) == Some(u)
    requires ValidateUpdate(s, blockTime, u).Pass?
    ensures C.RevisionAgrees(s, u)
  {
    assert S.CarriesUpdate(d, update, u);
    S.AcceptedUpdateIsValid(d, lib, c, u);
    assert u.env.chainId == s.client.chainId;
    assert HashAt(s, u.trustedHeight.revisionHeight) != Zero;
  }

  lemma CombinedNeedsValidUpdate(d: Deployment, s: Store, e: Event, p: SP1Proof, o: UcAndMembershipOutput)
    requires e.call.Membership? && e.call.membershipMsg.proof == Some(WithUpdate(Some(p)))
    requires d.abi.ucAndMembership(p.publicValues) == Some(o) && Step(d, s, e).result.Ok?
    ensures ValidateUpdate(s, e.blockTime, o.updateClientOutput).Pass?
  {
  }

  /** So on a reachable client the combined call does exactly what its two halves do, without a proviso. */
  lemma CombinedIsTwoCallsWhenSound(
    d: Deployment, lib: Library, c: Codec, client: ClientState, genesis: Digest, es: seq<Event>,
    blockTime: nat, laterTime: nat,
    combined: SP1Proof, update: SP1Proof, plain: SP1Proof, o: UcAndMembershipOutput, path: Path, value: Bytes)
    requires S.Sound(d, lib, c) && S.VerifiesHeaders(lib)
    requires C.Companions(d, combined, update, plain, o)
    ensures
      var s := Run(d, Genesis(client, genesis), es);
      var u := o.updateClientOutput;
      var whole := Step(d, s, Event(blockTime, Call.Membership(C.CombinedMsg(combined, u.newHeight, path, value))));
      var first := Step(d, s, Event(blockTime, Call.UpdateClient(Some(update))));
      var second := Step(d, first.post, Event(laterTime, Call.Membership(
                           C.PlainMsg(plain, u.newConsensusState, u.newHeight, path, value))));
      && (whole.result.Ok? <==> first.result in {Ok(Updated(Update)), Ok(Updated(NoOp))} && second.result.Ok?)
      && (whole.result.Ok? ==>
            && whole.result == second.result
            && whole.post.client == second.post.client
            && whole.post.hashes == second.post.hashes)
  {
    var s := Run(d, Genesis(client, genesis), es);
    var u := o.updateClientOutput;
    RevisionSettles(d, lib, c, client, genesis, es);
    C.CombinedIsTwoCalls(d, s, blockTime, laterTime, combined, update, plain, o, path, value);
    var e := Event(blockTime, Call.Membership(C.CombinedMsg(combined, u.newHeight, path, value)));
    if Step(d, s, e).result.Ok? {
      CombinedNeedsValidUpdate(d, s, e, combined, o);
      CombinedAtRevision(d, lib, c, s, blockTime, update, u);
    }
  }

  /* Time. */

  /** Whatever a block stores comes from an accepted update whose proof is at most 3000 seconds old, and lies between
      the stored state it was verified from and the time of the proof. The block is within the trusting period of
      that state, give or take the same 3000 seconds, exactly as long as the programs' host time is exact. */
  lemma StoredStatesAreTimely(
    d: Deployment, lib: Library, c: Codec, client: ClientState, genesis: Digest, es: seq<Event>, i: nat, h: uint32,
    cs: ConsensusState)
    returns (o: UpdateClientOutput)
    requires S.Sound(d, lib, c) && S.VerifiesHeaders(lib) && i < |es|
    requires HashAt(Run(d, Genesis(client, genesis), es[..i]), h) == Zero
    requires HashAt(Run(d, Genesis(client, genesis), es[..i + 1]), h) == ConsensusStateHash(cs)
    ensures Justifies(d, Run(d, Genesis(client, genesis), es[..i]), es[i].blockTime, h, o) && o.newConsensusState == cs
    ensures o.trustedConsensusState.timestamp <= cs.timestamp <= o.env.now
    ensures o.env.now <= es[i].blockTime <= o.env.now + 3000
    ensures es[i].blockTime < o.trustedConsensusState.timestamp + client.trustingPeriod + 3000
            <==> o.env.now <= 18446744073
    ensures client.trustingPeriod <= client.unbondingPeriod
  {
    var g := Genesis(client, genesis);
    var s := Run(d, g, es[..i]);
    assert es[..i + 1][..i] == es[..i];
    R.ReachableCacheSound(d, client, genesis, es[..i]);
    RunExtends(d, g, es[..i]);
    o := NewStateIsJustified(d, s, es[i], h);
    S.AcceptedUpdateIsValid(d, lib, c, o);
  }

  predicate ClockForward(es: seq<Event>) {
    forall i, j :: 0 <= i <= j < |es| ==> es[i].blockTime <= es[j].blockTime
  }

  /** With a clock that never goes back, no stored state but genesis is later than the last block. */
  lemma {:induction false} NothingFromTheFuture(
    d: Deployment, lib: Library, c: Codec, client: ClientState, genesis: Digest, es: seq<Event>, h: uint32,
    cs: ConsensusState)
    requires S.Sound(d, lib, c) && S.VerifiesHeaders(lib) && ClockForward(es)
    requires HashAt(Run(d, Genesis(client, genesis), es), h) == ConsensusStateHash(cs)
    requires HashAt(Genesis(client, genesis), h) == Zero
    ensures es != [] && cs.timestamp <= es[|es| - 1].blockTime
  {
    var g := Genesis(client, genesis);
    if es != [] {
      var n := |es| - 1;
      StepExtends(d, Run(d, g, es[..n]), es[n]);
      if HashAt(Run(d, g, es[..n]), h) != Zero {
        NothingFromTheFuture(d, lib, c, client, genesis, es[..n], h, cs);
        assert es[..n][n - 1] == es[n - 1];
      } else {
        assert es[..n + 1] == es;
        var _ := StoredStatesAreTimely(d, lib, c, client, genesis, es, n, h, cs);
      }
    }
  }

  /* Membership answers. */

  /** What a successful membership call leaves: a stored state at its height, whose timestamp it returned and
      whose root proves the answer. */
  ghost predicate Backed(lib: Library, s: Store, msg: MsgMembership, r: Returned, cs: ConsensusState) {
    && HashAt(s, msg.proofHeight.revisionHeight) == ConsensusStateHash(cs)
    && r == TrustedTimestamp(cs.timestamp)
    && Proven(lib, cs.root, msg.path, msg.value)
  }

  lemma PlainIsBacked(
    d: Deployment, lib: Library, c: Codec, s: Store, msg: MsgMembership, payload: Option<SP1MembershipProof>)
    returns (cs: ConsensusState)
    requires S.Sound(d, lib, c) && R.CacheSound(d, s)
    requires ExecutePlain(d, s, msg, payload).Ok?
    ensures var (r, post) := ExecutePlain(d, s, msg, payload).value;
            Backed(lib, post, msg, r, cs)
  {
    cs := payload.value.trustedConsensusState;
    var p := payload.value.sp1Proof;
    S.AcceptedMembership(d, lib, c, p, d.abi.membership(p.publicValues).value);
  }

  lemma WithUpdateIsBacked(
    d: Deployment, lib: Library, c: Codec, s: Store, blockTime: nat, msg: MsgMembership, payload: Option<SP1Proof>)
    returns (cs: ConsensusState)
    requires S.Sound(d, lib, c) && R.CacheSound(d, s)
    requires ExecuteWithUpdate(d, s, blockTime, msg, payload).Ok?
    ensures var (r, post) := ExecuteWithUpdate(d, s, blockTime, msg, payload).value;
            Backed(lib, post, msg, r, cs)
  {
    var p := payload.value;
    var o := d.abi.ucAndMembership(p.publicValues).value;
    cs := o.updateClientOutput.newConsensusState;
    S.AcceptedUcAndMembership(d, lib, c, p, o);
  }

  lemma MembershipIsBacked(
    d: Deployment, lib: Library, c: Codec, client: ClientState, genesis: Digest, es: seq<Event>, i: nat)
    returns (cs: ConsensusState)
    requires S.Sound(d, lib, c) && i < |es| && es[i].call.Membership?
    requires ResultAt(d, Genesis(client, genesis), es, i).Ok?
    ensures Backed(lib, Run(d, Genesis(client, genesis), es[..i + 1]), es[i].call.membershipMsg,
                   ResultAt(d, Genesis(client, genesis), es, i).value, cs)
  {
    var g := Genesis(client, genesis);
    var s, msg := Run(d, g, es[..i]), es[i].call.membershipMsg;
    R.ReachableCacheSound(d, client, genesis, es[..i]);
    assert es[..i + 1][..i] == es[..i];
    match msg.proof.value {
      case Plain(payload) =>
        cs := PlainIsBacked(d, lib, c, s, msg, payload);
      case WithUpdate(payload) =>
        cs := WithUpdateIsBacked(d, lib, c, s, es[i].blockTime, msg, payload);
    }
  }

  /** No two successful membership calls of a run, of either kind and at any points, disagree about a path at a
      height: they accept the same value, or absence both, and return the same timestamp. */
  lemma AnswersAgree(
    d: Deployment, lib: Library, c: Codec, client: ClientState, genesis: Digest, es: seq<Event>, i: nat, j: nat)
    requires S.Sound(d, lib, c) && i <= j < |es| && es[i].call.Membership? && es[j].call.Membership?
    requires ResultAt(d, Genesis(client, genesis), es, i).Ok? && ResultAt(d, Genesis(client, genesis), es, j).Ok?
    requires es[i].call.membershipMsg.proofHeight.revisionHeight == es[j].call.membershipMsg.proofHeight.revisionHeight
    ensures ResultAt(d, Genesis(client, genesis), es, i) == ResultAt(d, Genesis(client, genesis), es, j)
    ensures S.AnswersOnce(lib) && es[i].call.membershipMsg.path == es[j].call.membershipMsg.path ==>
              es[i].call.membershipMsg.value == es[j].call.membershipMsg.value
  {
    var g := Genesis(client, genesis);
    var a, b := es[i].call.membershipMsg, es[j].call.membershipMsg;
    var cs := MembershipIsBacked(d, lib, c, client, genesis, es, i);
    var cs' := MembershipIsBacked(d, lib, c, client, genesis, es, j);
    RunMonotone(d, g, es, i + 1, j + 1);
    assert HashAt(Run(d, g, es[..i + 1]), a.proofHeight.revisionHeight) != Zero;
    assert cs == cs';
    if S.AnswersOnce(lib) && a.path == b.path {
      var p :| Proves(lib, cs.root, a.path, a.value, p);
      var q :| Proves(lib, cs.root, b.path, b.value, q);
    }
  }

  predicate StoppedByLength(r: Result<(Returned, Store), Error>) {
    r == Err(LengthIsOutOfRange) || r == Err(CounterOverflow)
  }

  lemma PlainStoppedByLength(
    d: Deployment, lib: Library, c: Codec, s: Store, msg: MsgMembership, payload: Option<SP1MembershipProof>)
    requires S.Sound(d, lib, c) && StoppedByLength(ExecutePlain(d, s, msg, payload))
    ensures payload.Some? && !d.accepts(payload.value.sp1Proof)
  {
    var p := payload.value.sp1Proof;
    if d.accepts(p) {
      S.AcceptedMembership(d, lib, c, p, d.abi.membership(p.publicValues).value);
    }
  }

  lemma WithUpdateStoppedByLength(
    d: Deployment, lib: Library, c: Codec, s: Store, blockTime: nat, msg: MsgMembership, payload: Option<SP1Proof>)
    requires S.Sound(d, lib, c) && StoppedByLength(ExecuteWithUpdate(d, s, blockTime, msg, payload))
    ensures payload.Some? && !d.accepts(payload.value)
  {
    var p := payload.value;
    if d.accepts(p) {
      S.AcceptedUcAndMembership(d, lib, c, p, d.abi.ucAndMembership(p.publicValues).value);
    }
  }

  /** The length check and the counter only ever stop proofs that the verifier rejects. */
  lemma LengthErrorsMeanRejectedProofs(
    d: Deployment, lib: Library, c: Codec, s: Store, blockTime: nat, msg: MsgMembership)
    requires S.Sound(d, lib, c) && StoppedByLength(ExecuteMembership(d, s, blockTime, msg))
    ensures match msg.proof
            case Some(Plain(Some(m))) => !d.accepts(m.sp1Proof)
            case Some(WithUpdate(Some(p))) => !d.accepts(p)
            case _ => false
  {
    match msg.proof.value {
      case Plain(payload) =>
        PlainStoppedByLength(d, lib, c, s, msg, payload);
      case WithUpdate(payload) =>
        WithUpdateStoppedByLength(d, lib, c, s, blockTime, msg, payload);
    }
  }

  /* Following the chain. */

  /** Every stored state is the chain's state at its height. */
  ghost predicate StoresOnly(s: Store, chain: S.Blockchain) {
    forall h: uint32 :: HashAt(s, h) != Zero ==> HashAt(s, h) == ConsensusStateHash(chain(h))
  }

  /** The deployed client, with the digest of its chain's state at its height. */
  function Start(w: S.Scene): Store {
    Genesis(w.client, ConsensusStateHash(w.chain(w.client.latestHeight.revisionHeight)))
  }

  predicate InSpan(w: S.Scene, blockTime: nat) {
    w.since <= blockTime <= w.until
  }

  predicate AllInSpan(w: S.Scene, es: seq<Event>) {
    forall i :: 0 <= i < |es| ==> InSpan(w, es[i].blockTime)
  }

  predicate SameParameters(client: ClientState, other: ClientState) {
    other == client.(latestHeight := other.latestHeight, isFrozen := other.isFrozen)
  }

  /** What the contract checks of an environment is what the scene admits. */
  lemma CheckedEnvIsAdmitted(w: S.Scene, s: Store, blockTime: nat, env: Env)
    requires SameParameters(w.client, s.client) && InSpan(w, blockTime)
    requires ValidateEnv(s.client, blockTime, env).Pass?
    ensures S.Admits(w, env)
  {
  }

  /** From a true genesis state, whoever submits what in these blocks, the client only ever stores the chain's
      states. Any run has such a span. */
  lemma {:induction false} TracksTheChain(d: Deployment, lib: Library, c: Codec, w: S.Scene, es: seq<Event>)
    requires S.Sound(d, lib, c) && S.VerifiesOnly(lib, w) && AllInSpan(w, es)
    ensures StoresOnly(Run(d, Start(w), es), w.chain) && SameParameters(w.client, Run(d, Start(w), es).client)
  {
    var genesis := ConsensusStateHash(w.chain(w.client.latestHeight.revisionHeight));
    if es != [] {
      var before := es[..|es| - 1];
      var s, e := Run(d, Start(w), before), es[|es| - 1];
      TracksTheChain(d, lib, c, w, before);
      R.ReachableCacheSound(d, w.client, genesis, before);
      StepExtends(d, s, e);
      forall h: uint32 | HashAt(Step(d, s, e).post, h) != Zero
        ensures HashAt(Step(d, s, e).post, h) == ConsensusStateHash(w.chain(h))
      {
        if HashAt(s, h) == Zero {
          var o := NewStateIsJustified(d, s, e, h);
          CheckedEnvIsAdmitted(w, s, e.blockTime, o.env);
          S.AcceptedUpdateIsTrue(d, lib, c, w, o);
        }
      }
    }
  }

  /** So every successful membership call answers from the chain's root at its height, with the chain's timestamp. */
  lemma AnswersComeFromTheChain(d: Deployment, lib: Library, c: Codec, w: S.Scene, es: seq<Event>, i: nat)
    requires S.Sound(d, lib, c) && S.VerifiesOnly(lib, w) && AllInSpan(w, es)
    requires i < |es| && es[i].call.Membership?
    ensures var msg := es[i].call.membershipMsg;
            var state := w.chain(msg.proofHeight.revisionHeight);
            ResultAt(d, Start(w), es, i).Ok? ==>
              && ResultAt(d, Start(w), es, i).value == TrustedTimestamp(state.timestamp)
              && Proven(lib, state.root, msg.path, msg.value)
  {
    var genesis := ConsensusStateHash(w.chain(w.client.latestHeight.revisionHeight));
    if ResultAt(d, Start(w), es, i).Ok? {
      var cs := MembershipIsBacked(d, lib, c, w.client, genesis, es, i);
      TracksTheChain(d, lib, c, w, es[..i + 1]);
    }
  }

  /** An update that is current and accepted, for a stored height, and within its trusted state's second. */
  predicate SameSecondUpdate(d: Deployment, s: Store, e: Event) {
    match e.call
    case UpdateClient(Some(p)) =>
      p.vKey == d.updateClientVKey && d.accepts(p)
      && (match C.UpdateOf(d, p)
          case Some(o) =>
            && ValidateUpdate(s, e.blockTime, o).Pass?
            && HashAt(s, o.newHeight.revisionHeight) != Zero
            && o.trustedConsensusState.timestamp == o.newConsensusState.timestamp
          case None => false)
    case _ => false
  }

  /** A client with the scene's parameters that stores nothing but the chain's states. */
  ghost predicate OnTheChain(w: S.Scene, s: Store) {
    SameParameters(w.client, s.client) && StoresOnly(s, w.chain)
  }

  lemma ChainConflicts(d: Deployment, lib: Library, c: Codec, w: S.Scene, s: Store, blockTime: nat, p: SP1Proof)
    requires S.Sound(d, lib, c) && S.VerifiesHeaders(lib) && S.VerifiesOnly(lib, w)
    requires OnTheChain(w, s) && InSpan(w, blockTime)
    ensures ConflictingUpdate(d, s, blockTime, p)
            <==> SameSecondUpdate(d, s, Event(blockTime, Call.UpdateClient(Some(p))))
  {
    if p.vKey == d.updateClientVKey && d.accepts(p) && C.UpdateOf(d, p).Some? {
      var o := C.UpdateOf(d, p).value;
      assert S.CarriesUpdate(d, p, o);
      S.AcceptedUpdateIsValid(d, lib, c, o);
      if ValidateUpdate(s, blockTime, o).Pass? {
        CheckedEnvIsAdmitted(w, s, blockTime, o.env);
        S.AcceptedUpdateIsTrue(d, lib, c, w, o);
      }
    }
  }

  /** An update freezes such a client exactly when it is one of these: the stored state itself never differs. */
  lemma OnlySameSecondUpdatesFreeze(
    d: Deployment, lib: Library, c: Codec, w: S.Scene, es: seq<Event>, blockTime: nat, p: SP1Proof)
    requires S.Sound(d, lib, c) && S.VerifiesHeaders(lib) && S.VerifiesOnly(lib, w)
    requires AllInSpan(w, es) && InSpan(w, blockTime)
    ensures
      var s := Run(d, Start(w), es);
      var e := Event(blockTime, Call.UpdateClient(Some(p)));
      Step(d, s, e).result == Ok(Updated(Misbehaviour)) <==> SameSecondUpdate(d, s, e)
  {
    TracksTheChain(d, lib, c, w, es);
    ChainConflicts(d, lib, c, w, Run(d, Start(w), es), blockTime, p);
    StepFreezes(d, Run(d, Start(w), es), Event(blockTime, Call.UpdateClient(Some(p))));
  }

  ghost predicate SameSecondUpdateAt(d: Deployment, s: Store, es: seq<Event>, i: nat) {
    i < |es| && SameSecondUpdate(d, Run(d, s, es[..i]), es[i])
  }

  lemma ChainDoesNotMisbehave(
    d: Deployment, lib: Library, c: Codec, w: S.Scene, s: Store, blockTime: nat, p: SP1Proof)
    requires S.Sound(d, lib, c) && S.FindsNoMisbehaviour(lib, w)
    requires OnTheChain(w, s) && InSpan(w, blockTime)
    ensures !MisbehaviourFromStored(d, s, blockTime, p)
  {
    if MisbehaviourFromStored(d, s, blockTime, p) {
      var o := d.abi.misbehaviour(p.publicValues).value;
      CheckedEnvIsAdmitted(w, s, blockTime, o.env);
      S.AcceptedMisbehaviourIsFalse(d, lib, c, w, p, o);
    }
  }

  /** On a client that follows a chain which does not misbehave, the only evidence is such an update. */
  lemma ChainEvidence(d: Deployment, lib: Library, c: Codec, w: S.Scene, s: Store, e: Event)
    requires S.Sound(d, lib, c) && S.VerifiesHeaders(lib) && S.VerifiesOnly(lib, w) && S.FindsNoMisbehaviour(lib, w)
    requires OnTheChain(w, s) && InSpan(w, e.blockTime)
    ensures FreezingEvidence(d, s, e) <==> SameSecondUpdate(d, s, e)
  {
    match e.call {
      case UpdateClient(Some(p)) =>
        ChainConflicts(d, lib, c, w, s, e.blockTime, p);
      case SubmitMisbehaviour(Some(p)) =>
        ChainDoesNotMisbehave(d, lib, c, w, s, e.blockTime, p);
      case _ =>
    }
  }

  /** Over every run, such a client is frozen exactly when it was at genesis or some call was such an update. */
  lemma ChainFreezesOnlyWithinASecond(d: Deployment, lib: Library, c: Codec, w: S.Scene, es: seq<Event>)
    requires S.Sound(d, lib, c) && S.VerifiesHeaders(lib) && S.VerifiesOnly(lib, w) && S.FindsNoMisbehaviour(lib, w)
    requires AllInSpan(w, es)
    ensures Run(d, Start(w), es).client.isFrozen <==>
              w.client.isFrozen || exists i: nat :: SameSecondUpdateAt(d, Start(w), es, i)
  {
    var g := Start(w);
    FrozenExactlyOnEvidence(d, g, es);
    forall i: nat
      ensures FreezingEvidenceAt(d, g, es, i) <==> SameSecondUpdateAt(d, g, es, i)
    {
      if i < |es| {
        TracksTheChain(d, lib, c, w, es[..i]);
        ChainEvidence(d, lib, c, w, Run(d, g, es[..i]), es[i]);
      }
    }
    if Run(d, g, es).client.isFrozen && !w.client.isFrozen {
      var i: nat :| FreezingEvidenceAt(d, g, es, i);
      assert SameSecondUpdateAt(d, g, es, i);
    }
    if i: nat :| SameSecondUpdateAt(d, g, es, i) {
      assert FreezingEvidenceAt(d, g, es, i);
    }
  }

  /* Misbehaviour. */

  /** On this input, the states the library saw are the ones supplied, and these are what the contract stores at the
      headers' trusted heights. */
  ghost predicate SawStoredStates(lib: Library, c: Codec, s: Store, stdin: seq<Bytes>, o: MisbehaviourOutput) {
    && ParseMisbehaviour(c, stdin).Some?
    && var input := ParseMisbehaviour(c, stdin).value;
       && StateFor(TrustedStates(input.evidence, input.trusted1, input.trusted2), input.evidence.header1)
          == Some(input.trusted1)
       && StateFor(TrustedStates(input.evidence, input.trusted1, input.trusted2), input.evidence.header2)
          == Some(input.trusted2)
       && VerifiedMisbehaviour(lib, o, input.evidence, input.trusted1, input.trusted2)
       && input.trusted1 == IcsOf(o.trustedConsensusState1) && Stored(s, o.trustedHeight1, o.trustedConsensusState1)
       && input.trusted2 == IcsOf(o.trustedConsensusState2) && Stored(s, o.trustedHeight2, o.trustedConsensusState2)
  }

  /** For every accepted misbehaviour message, and every input that commits its output: the state the library saw for
      each header is the one supplied for it and the one the contract stores at its trusted height, also when both
      heights coincide and the program's map keeps only one of them. With sound proofs there is such an input. */
  lemma MisbehaviourUsedStoredStates(
    d: Deployment, lib: Library, c: Codec, s: Store, blockTime: nat, p: SP1Proof, o: MisbehaviourOutput)
    requires d.abi.misbehaviour(p.publicValues) == Some(o)
    requires Step(d, s, Event(blockTime, SubmitMisbehaviour(Some(p)))).result.Ok?
    ensures forall stdin :: S.MisbehaviourCommits(lib, c, stdin, o) ==> SawStoredStates(lib, c, s, stdin, o)
    ensures S.Sound(d, lib, c) ==> exists stdin :: S.MisbehaviourCommits(lib, c, stdin, o)
  {
    forall stdin | S.MisbehaviourCommits(lib, c, stdin, o)
      ensures SawStoredStates(lib, c, s, stdin, o)
    {
      var used1, used2 := Commits.MisbehaviourInputOf(lib, c, stdin, o);
      var input := ParseMisbehaviour(c, stdin).value;
      CollapsedMap(input.evidence, input.trusted1, input.trusted2);
    }
    if S.Sound(d, lib, c) {
      assert d.accepts(p) && p.vKey == d.misbehaviourVKey;
      assert S.ProvenMisbehaviour(d, lib, c, p);
    }
  }
}
