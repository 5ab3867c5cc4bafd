/** How calls compose: the combined call against its two parts, proofs submitted again, and updates in any order. */
module Composition {
  import opened Wrappers
  import opened Msgs
  import opened KvSearch
  import opened ClientSpec
  import opened Invariants

  function UpdateOf(d: Deployment, p: SP1Proof): Option<UpdateClientOutput> {
    d.abi.updateClient(p.publicValues)
  }

  /** A combined proof together with proofs of its two halves. */
  ghost predicate Companions(
    d: Deployment, combined: SP1Proof, update: SP1Proof, plain: SP1Proof, o: UcAndMembershipOutput)
  {
    && combined.vKey == d.ucAndMembershipVKey && d.accepts(combined)
    && d.abi.ucAndMembership(combined.publicValues) == Some(o)
    && update.vKey == d.updateClientVKey && d.accepts(update)
    && UpdateOf(d, update) == Some(o.updateClientOutput)
    && plain.vKey == d.membershipVKey && d.accepts(plain)
    && d.abi.membership(plain.publicValues)
       == Some(MembershipOutput(o.updateClientOutput.newConsensusState.root, o.kvPairs))
  }

  function CombinedMsg(p: SP1Proof, height: Height, path: Path, value: Bytes): MsgMembership {
    MsgMembership(Some(WithUpdate(Some(p))), height, path, value)
  }

  function PlainMsg(p: SP1Proof, trusted: ConsensusState, height: Height, path: Path, value: Bytes): MsgMembership {
    MsgMembership(Some(Plain(Some(SP1MembershipProof(p, trusted)))), height, path, value)
  }

  /** The client's revision number will be the new height's: it is already, or the update is new and raises the
      latest height. */
  predicate RevisionAgrees(s: Store, u: UpdateClientOutput) {
    || u.newHeight.revisionNumber == s.client.latestHeight.revisionNumber
    || (HashAt(s, u.newHeight.revisionHeight) == Zero
        && u.newHeight.revisionHeight > s.client.latestHeight.revisionHeight)
  }

  /** The combined call does what an update (new, or already known) and then a plain membership call at the new
      height do, the latter in any block. The two calls ask one thing more, which can be seen beforehand: that the
      new height has the client's revision number, or passes its latest height. */
  lemma CombinedIsTwoCalls(
    d: Deployment, s: Store, blockTime: nat, laterTime: nat,
    combined: SP1Proof, update: SP1Proof, plain: SP1Proof, o: UcAndMembershipOutput, path: Path, value: Bytes)
    requires Companions(d, combined, update, plain, o)
    ensures
      var u := o.updateClientOutput;
      var whole := Step(d, s, Event(blockTime, Membership(CombinedMsg(combined, u.newHeight, path, value))));
      var first := Step(d, s, Event(blockTime, UpdateClient(Some(update))));
      var second := Step(d, first.post, Event(laterTime, Membership(
                           PlainMsg(plain, u.newConsensusState, u.newHeight, path, value))));
      var bothSucceed := first.result in {Ok(Updated(Update)), Ok(Updated(NoOp))} && second.result.Ok?;
      && (bothSucceed <==> whole.result.Ok? && RevisionAgrees(s, u))
      && (bothSucceed ==>
            && whole.result == second.result
            && whole.post.client == second.post.client
            && whole.post.hashes == second.post.hashes)
    ensures LatestIsGreatest(s) ==>
              (RevisionAgrees(s, o.updateClientOutput) <==>
               || o.updateClientOutput.newHeight.revisionNumber == s.client.latestHeight.revisionNumber
               || o.updateClientOutput.newHeight.revisionHeight > s.client.latestHeight.revisionHeight)
  {
    var u := o.updateClientOutput;
    var first := Step(d, s, Event(blockTime, UpdateClient(Some(update))));
    if ValidateUpdate(s, blockTime, u).Pass? && !CheckUpdateResult(s, u).Misbehaviour? {
      assert Stored(first.post, u.newHeight, u.newConsensusState);
    }
  }

  /** Where they differ: on a fresh client of revision 1, with all proofs accepted, the combined call proves a pair at
      a lower height of revision 2; the update alone succeeds too, and then the plain call reverts. */
  lemma RevisionExample() returns (
      d: Deployment, s: Store, combined: SP1Proof, update: SP1Proof, plain: SP1Proof, o: UcAndMembershipOutput,
      path: Path, value: Bytes)
    ensures Companions(d, combined, update, plain, o) && LatestIsGreatest(s)
    ensures
      var u := o.updateClientOutput;
      var first := Step(d, s, Event(600, UpdateClient(Some(update))));
      && Step(d, s, Event(600, Membership(CombinedMsg(combined, u.newHeight, path, value)))).result
         == Ok(TrustedTimestamp(u.newConsensusState.timestamp))
      && first.result == Ok(Updated(Update))
      && Step(d, first.post, Event(600, Membership(
                PlainMsg(plain, u.newConsensusState, u.newHeight, path, value)))).result
         == Err(ProofHeightMismatch)
  {
    var word: Bytes32 := seq(32, _ => 0);
    var third := TrustThreshold(1, 3);
    var before, after := ConsensusState(500, word, word), ConsensusState(510, word, word);
    var u := UpdateClientOutput(before, after, Env("chain-1", third, 1000, 600), Height(1, 10), Height(2, 5));
    path, value := [[1]], [2];
    var pairs := [KVPair(path, value)];
    o := UcAndMembershipOutput(u, pairs);
    d := Deployment(word, word, word, word, _ => true,
                    Abi(_ => Some(u), _ => Some(MembershipOutput(word, pairs)), _ => Some(o), _ => None));
    var p := SP1Proof(word, [], []);
    combined, update, plain := p, p, p;
    s := Genesis(ClientState("chain-1", third, Height(1, 10), 1000, 2000, false), ConsensusStateHash(before));
    assert FirstValue(pairs, path) == Some(value);
  }

  /** The check that closes the combined call passes whenever the call gets that far. */
  lemma ClosingCheckPasses(s: Store, blockTime: nat, u: UpdateClientOutput)
    requires ValidateUpdate(s, blockTime, u).Pass? && !CheckUpdateResult(s, u).Misbehaviour?
    ensures ValidateMembership(
              if CheckUpdateResult(s, u).Update? then RecordUpdate(s, u) else s,
              u.newConsensusState.root, u.newHeight.revisionHeight, u.newConsensusState).Pass?
  {
  }

  /* Submitting a proof again. */

  predicate Fresh(blockTime: nat, env: Env) {
    env.now <= blockTime <= env.now + 3000
  }

  /** The header's second is later than the trusted one's. */
  predicate MovesTime(o: UpdateClientOutput) {
    o.trustedConsensusState.timestamp < o.newConsensusState.timestamp
  }

  function Deaf(d: Deployment): Deployment {
    d.(accepts := _ => false)
  }

  /** What is known of a client that once recorded or confirmed this update and is not frozen. */
  ghost predicate Recorded(s: Store, o: UpdateClientOutput) {
    && !s.client.isFrozen
    && Stored(s, o.trustedHeight, o.trustedConsensusState)
    && Stored(s, o.newHeight, o.newConsensusState)
    && o.env == Env(s.client.chainId, s.client.trustLevel, s.client.trustingPeriod, o.env.now)
    && s.client.trustingPeriod <= s.client.unbondingPeriod
  }

  lemma RecordedPersists(d: Deployment, s: Store, es: seq<Event>, o: UpdateClientOutput)
    requires Recorded(s, o) && !Run(d, s, es).client.isFrozen
    ensures Recorded(Run(d, s, es), o)
    ensures s.verified <= Run(d, s, es).verified
  {
    RunExtends(d, s, es);
  }

  /** An update submitted again after any run reverts exactly when the client is frozen or the block is not fresh.
      Otherwise it is a NoOp exactly when its second is later than the trusted one: an update within the same second
      is taken for misbehaviour, and freezes the client. */
  lemma ResubmittedUpdate(
    d: Deployment, s: Store, t0: nat, p: SP1Proof, es: seq<Event>, t1: nat)
    requires Step(d, s, Event(t0, UpdateClient(Some(p)))).result == Ok(Updated(Update))
    ensures UpdateOf(d, p).Some?
    ensures
      var o := UpdateOf(d, p).value;
      var s1 := Run(d, Step(d, s, Event(t0, UpdateClient(Some(p)))).post, es);
      var again := Step(d, s1, Event(t1, UpdateClient(Some(p))));
      var servable := !s1.client.isFrozen && Fresh(t1, o.env);
      && (again.result.Err? <==> !servable)
      && (again.result == Ok(Updated(NoOp)) <==> servable && MovesTime(o))
      && (again.result == Ok(Updated(Misbehaviour)) <==> servable && !MovesTime(o))
      && again.post == if again.result == Ok(Updated(Misbehaviour)) then Freeze(s1) else s1
  {
    var o := UpdateOf(d, p).value;
    var s0 := Step(d, s, Event(t0, UpdateClient(Some(p)))).post;
    assert Recorded(s0, o);
    if !Run(d, s0, es).client.isFrozen {
      RecordedPersists(d, s0, es, o);
    }
  }

  /** An update succeeds with a verifier that rejects everything exactly when it is a well-formed and current update to
      a state that is stored already, at a later second than the trusted one: the guard of the early return. */
  lemma OnlyKnownUpdatesNeedNoProof(d: Deployment, s: Store, t: nat, p: SP1Proof)
    ensures var deaf := Step(Deaf(d), s, Event(t, UpdateClient(Some(p))));
            && (deaf.result.Ok? <==>
                  && p.vKey == d.updateClientVKey && UpdateOf(d, p).Some?
                  && var o := UpdateOf(d, p).value;
                     && ValidateUpdate(s, t, o).Pass?
                     && Stored(s, o.newHeight, o.newConsensusState)
                     && MovesTime(o))
            && (deaf.result.Ok? <==> Step(d, s, Event(t, UpdateClient(Some(p)))).result == Ok(Updated(NoOp)))
            && deaf.post == s
  {
  }

  /** Once a combined call with several pairs has succeeded, its proof answers for every pair of its batch after
      any run, exactly while the client is not frozen, in a fresh block, when the header's second is later than the
      trusted one; it changes no storage, and the verifier is not asked: one that rejects everything makes no
      difference. */
  lemma BatchReplay(
    d: Deployment, s: Store, t0: nat, p: SP1Proof, o: UcAndMembershipOutput, path0: Path, value0: Bytes,
    es: seq<Event>, t1: nat, path: Path, value: Bytes)
    requires d.abi.ucAndMembership(p.publicValues) == Some(o) && |o.kvPairs| > 1
    requires Step(d, s, Event(t0, Membership(CombinedMsg(p, o.updateClientOutput.newHeight, path0, value0)))).result.Ok?
    ensures
      var u := o.updateClientOutput;
      var s0 := Step(d, s, Event(t0, Membership(CombinedMsg(p, u.newHeight, path0, value0)))).post;
      var s1 := Run(d, s0, es);
      var e := Event(t1, Membership(CombinedMsg(p, u.newHeight, path, value)));
      var replay := Step(d, s1, e);
      var servable := !s1.client.isFrozen && Fresh(t1, u.env);
      && replay == Step(Deaf(d), s1, e)
      && replay.post == s1
      && (replay.result.Ok? <==> servable && MovesTime(u) && FirstValue(o.kvPairs, path) == Some(value))
      && (replay.result.Ok? ==> replay.result.value == TrustedTimestamp(u.newConsensusState.timestamp))
      && (replay.result == Err(CannotHandleMisbehavior) <==> servable && !MovesTime(u))
  {
    var u := o.updateClientOutput;
    var s0 := Step(d, s, Event(t0, Membership(CombinedMsg(p, u.newHeight, path0, value0)))).post;
    assert Recorded(s0, u) && ProofHash(p) in s0.verified;
    RunExtends(d, s0, es);
    if !Run(d, s0, es).client.isFrozen {
      RecordedPersists(d, s0, es, u);
    }
  }

  /** A plain proof of several pairs carries no time: once it has served, it serves the first value of each of its
      paths after any run and at any time, exactly while the client is not frozen and has the asked revision number,
      with no storage change and without the verifier. */
  lemma PlainBatchReplay(
    d: Deployment, s: Store, t0: nat, p: SP1Proof, o: MembershipOutput, trusted: ConsensusState, height: Height,
    path0: Path, value0: Bytes, es: seq<Event>, t1: nat, revision: uint32, path: Path, value: Bytes)
    requires d.abi.membership(p.publicValues) == Some(o) && |o.kvPairs| > 1
    requires Step(d, s, Event(t0, Membership(PlainMsg(p, trusted, height, path0, value0)))).result.Ok?
    ensures
      var s0 := Step(d, s, Event(t0, Membership(PlainMsg(p, trusted, height, path0, value0)))).post;
      var s1 := Run(d, s0, es);
      var e := Event(t1, Membership(PlainMsg(p, trusted, Height(revision, height.revisionHeight), path, value)));
      var replay := Step(d, s1, e);
      && replay == Step(Deaf(d), s1, e)
      && replay.post == s1
      && (replay.result.Ok? <==>
            && !s1.client.isFrozen
            && revision == s1.client.latestHeight.revisionNumber
            && FirstValue(o.kvPairs, path) == Some(value))
      && (replay.result.Ok? ==> replay.result.value == TrustedTimestamp(trusted.timestamp))
  {
    var s0 := Step(d, s, Event(t0, Membership(PlainMsg(p, trusted, height, path0, value0)))).post;
    assert Stored(s0, height, trusted) && ProofHash(p) in s0.verified;
    RunExtends(d, s0, es);
  }

  /* Updates in any order. */

  function Updates(blockTime: nat, ps: seq<SP1Proof>): (es: seq<Event>)
    ensures |es| == |ps|
  {
    seq(|ps|, i requires 0 <= i < |ps| => Event(blockTime, UpdateClient(Some(ps[i]))))
  }

  /** Each of these would be recorded by the client as it stands, and no two are for one height. */
  ghost predicate Independent(d: Deployment, s: Store, blockTime: nat, ps: seq<SP1Proof>) {
    && (forall p :: p in ps ==> Recordable(d, s, blockTime, p))
    && (forall i, j :: 0 <= i < j < |ps| ==> NewHeight(d, ps[i]).revisionHeight != NewHeight(d, ps[j]).revisionHeight)
  }

  ghost predicate Recordable(d: Deployment, s: Store, blockTime: nat, p: SP1Proof) {
    && p.vKey == d.updateClientVKey && d.accepts(p) && UpdateOf(d, p).Some?
    && ValidateUpdate(s, blockTime, UpdateOf(d, p).value).Pass?
    && HashAt(s, NewHeight(d, p).revisionHeight) == Zero
  }

  function NewHeight(d: Deployment, p: SP1Proof): Height {
    match UpdateOf(d, p)
    case Some(o) => o.newHeight
    case None => Height(0, 0)
  }

  /** The storage with all of these updates merged in, said without an order. */
  ghost predicate Merged(d: Deployment, s: Store, ps: seq<SP1Proof>, t: Store) {
    && t.verified == s.verified
    && MergedHashes(d, s, ps, t)
    && MergedClient(d, s, ps, t)
  }

  ghost predicate MergedHashes(d: Deployment, s: Store, ps: seq<SP1Proof>, t: Store) {
    && (forall h :: h in t.hashes <==> h in s.hashes || exists p :: p in ps && NewHeight(d, p).revisionHeight == h)
    && (forall p :: p in ps && UpdateOf(d, p).Some? ==>
          HashAt(t, NewHeight(d, p).revisionHeight) == ConsensusStateHash(UpdateOf(d, p).value.newConsensusState))
    && (forall h: uint32 ::
          (forall p :: p in ps ==> NewHeight(d, p).revisionHeight != h) ==> HashAt(t, h) == HashAt(s, h))
  }

  ghost predicate MergedClient(d: Deployment, s: Store, ps: seq<SP1Proof>, t: Store) {
    && t.client == s.client.(latestHeight := t.client.latestHeight)
    && (t.client.latestHeight == s.client.latestHeight
        || exists p :: p in ps && NewHeight(d, p) == t.client.latestHeight
                       && t.client.latestHeight.revisionHeight > s.client.latestHeight.revisionHeight)
    && s.client.latestHeight.revisionHeight <= t.client.latestHeight.revisionHeight
    && (forall p :: p in ps ==> NewHeight(d, p).revisionHeight <= t.client.latestHeight.revisionHeight)
  }

  lemma RecordableMeans(d: Deployment, s: Store, blockTime: nat, p: SP1Proof)
    ensures Recordable(d, s, blockTime, p) <==>
              Step(d, s, Event(blockTime, UpdateClient(Some(p)))).result == Ok(Updated(Update))
    ensures Recordable(d, s, blockTime, p) ==>
              Step(d, s, Event(blockTime, UpdateClient(Some(p)))).post == RecordUpdate(s, UpdateOf(d, p).value)
  {
  }

  lemma MergedHashesWithOneMore(d: Deployment, s: Store, ps: seq<SP1Proof>, t: Store, p: SP1Proof)
    requires MergedHashes(d, s, ps, t) && UpdateOf(d, p).Some?
    requires forall q :: q in ps ==> NewHeight(d, q).revisionHeight != NewHeight(d, p).revisionHeight
    ensures MergedHashes(d, s, ps + [p], RecordUpdate(t, UpdateOf(d, p).value))
  {
    assert p in ps + [p];
    assert forall q :: q in ps + [p] <==> q in ps || q == p;
  }

  lemma MergedClientWithOneMore(d: Deployment, s: Store, ps: seq<SP1Proof>, t: Store, p: SP1Proof)
    requires MergedClient(d, s, ps, t) && UpdateOf(d, p).Some?
    ensures MergedClient(d, s, ps + [p], RecordUpdate(t, UpdateOf(d, p).value))
  {
    assert p in ps + [p];
    assert forall q :: q in ps + [p] <==> q in ps || q == p;
  }

  /** An update that the client would have recorded is recorded after others have been merged in. */
  lemma StillRecordable(d: Deployment, s: Store, blockTime: nat, ps: seq<SP1Proof>, t: Store, p: SP1Proof)
    requires Merged(d, s, ps, t) && Recordable(d, s, blockTime, p)
    requires forall q :: q in ps ==> Recordable(d, s, blockTime, q)
    requires forall q :: q in ps ==> NewHeight(d, q).revisionHeight != NewHeight(d, p).revisionHeight
    ensures Recordable(d, t, blockTime, p)
  {
    var o := UpdateOf(d, p).value;
    assert HashAt(t, o.newHeight.revisionHeight) == Zero;
    assert HashAt(t, o.trustedHeight.revisionHeight) == HashAt(s, o.trustedHeight.revisionHeight);
  }

  lemma EarlierOnes(d: Deployment, s: Store, blockTime: nat, ps: seq<SP1Proof>, n: nat)
    requires Independent(d, s, blockTime, ps) && n < |ps|
    ensures Recordable(d, s, blockTime, ps[n])
    ensures forall q :: q in ps[..n] ==> Recordable(d, s, blockTime, q)
    ensures forall q :: q in ps[..n] ==> NewHeight(d, q).revisionHeight != NewHeight(d, ps[n]).revisionHeight
  {
    assert ps[n] in ps;
    forall q | q in ps[..n]
      ensures q in ps && NewHeight(d, q).revisionHeight != NewHeight(d, ps[n]).revisionHeight
    {
      var i :| 0 <= i < n && ps[..n][i] == q;
      assert ps[i] == q;
    }
  }

  lemma NextUpdate(d: Deployment, s: Store, blockTime: nat, ps: seq<SP1Proof>, n: nat, t: Store)
    requires Independent(d, s, blockTime, ps) && n < |ps| && Merged(d, s, ps[..n], t)
    ensures Recordable(d, t, blockTime, ps[n])
    ensures Merged(d, s, ps[..n + 1], RecordUpdate(t, UpdateOf(d, ps[n]).value))
  {
    EarlierOnes(d, s, blockTime, ps, n);
    NextMerged(d, s, blockTime, ps[..n], t, ps[n], ps[..n + 1]);
  }

  lemma NextMerged(
    d: Deployment, s: Store, blockTime: nat, ps: seq<SP1Proof>, t: Store, p: SP1Proof, all: seq<SP1Proof>)
    requires all == ps + [p]
    requires Merged(d, s, ps, t) && Recordable(d, s, blockTime, p)
    requires forall q :: q in ps ==> Recordable(d, s, blockTime, q)
    requires forall q :: q in ps ==> NewHeight(d, q).revisionHeight != NewHeight(d, p).revisionHeight
    ensures Recordable(d, t, blockTime, p)
    ensures Merged(d, s, all, RecordUpdate(t, UpdateOf(d, p).value))
  {
    StillRecordable(d, s, blockTime, ps, t, p);
    MergedHashesWithOneMore(d, s, ps, t, p);
    MergedClientWithOneMore(d, s, ps, t, p);
  }

  lemma RunNextUpdate(d: Deployment, s: Store, blockTime: nat, ps: seq<SP1Proof>, n: nat)
    requires n < |ps|
    requires Recordable(d, Run(d, s, Updates(blockTime, ps)[..n]), blockTime, ps[n])
    ensures Run(d, s, Updates(blockTime, ps)[..n + 1])
            == RecordUpdate(Run(d, s, Updates(blockTime, ps)[..n]), UpdateOf(d, ps[n]).value)
    ensures ResultAt(d, s, Updates(blockTime, ps), n) == Ok(Updated(Update))
  {
    var es := Updates(blockTime, ps);
    RecordableMeans(d, Run(d, s, es[..n]), blockTime, ps[n]);
    assert es[..n + 1][..n] == es[..n];
  }

  lemma {:induction false} RunMerges(d: Deployment, s: Store, blockTime: nat, ps: seq<SP1Proof>, n: nat)
    requires Independent(d, s, blockTime, ps) && n <= |ps|
    ensures Merged(d, s, ps[..n], Run(d, s, Updates(blockTime, ps)[..n]))
  {
    if n != 0 {
      var t := Run(d, s, Updates(blockTime, ps)[..n - 1]);
      RunMerges(d, s, blockTime, ps, n - 1);
      NextUpdate(d, s, blockTime, ps, n - 1, t);
      RunNextUpdate(d, s, blockTime, ps, n - 1);
    }
  }

  lemma RunRecordsAll(d: Deployment, s: Store, blockTime: nat, ps: seq<SP1Proof>)
    requires Independent(d, s, blockTime, ps)
    ensures Merged(d, s, ps, Run(d, s, Updates(blockTime, ps)))
    ensures forall i :: 0 <= i < |ps| ==> ResultAt(d, s, Updates(blockTime, ps), i) == Ok(Updated(Update))
  {
    forall i | 0 <= i < |ps|
      ensures ResultAt(d, s, Updates(blockTime, ps), i) == Ok(Updated(Update))
    {
      RunMerges(d, s, blockTime, ps, i);
      NextUpdate(d, s, blockTime, ps, i, Run(d, s, Updates(blockTime, ps)[..i]));
      RunNextUpdate(d, s, blockTime, ps, i);
    }
    RunMerges(d, s, blockTime, ps, |ps|);
    assert ps[..|ps|] == ps && Updates(blockTime, ps)[..|ps|] == Updates(blockTime, ps);
  }

  /** Two equal elements of a list count twice. */
  lemma CountsTwice<T>(xs: seq<T>, i: nat, j: nat)
    requires i < j < |xs| && xs[i] == xs[j]
    ensures multiset(xs)[xs[i]] >= 2
  {
    assert xs == xs[..j] + xs[j..];
    assert xs[i] == xs[..j][i] && xs[j] == xs[j..][0];
  }

  lemma {:induction false} CountsOnce<T>(xs: seq<T>, x: T)
    requires forall i, j :: 0 <= i < j < |xs| ==> xs[i] != xs[j]
    ensures multiset(xs)[x] <= 1
  {
    if xs != [] {
      var n := |xs| - 1;
      assert xs == xs[..n] + [xs[n]];
      CountsOnce(xs[..n], x);
      if x == xs[n] {
        assert x !in xs[..n];
      }
    }
  }

  lemma IndependentPermuted(d: Deployment, s: Store, blockTime: nat, ps: seq<SP1Proof>, qs: seq<SP1Proof>)
    requires Independent(d, s, blockTime, ps) && multiset(ps) == multiset(qs)
    ensures Independent(d, s, blockTime, qs)
    ensures forall p :: p in ps <==> p in qs
  {
    forall p
      ensures p in ps <==> p in qs
    {
      assert p in multiset(ps) <==> p in multiset(qs);
    }
    forall i, j | 0 <= i < j < |qs|
      ensures NewHeight(d, qs[i]).revisionHeight != NewHeight(d, qs[j]).revisionHeight
    {
      assert qs[i] in qs && qs[j] in qs;
      var a :| 0 <= a < |ps| && ps[a] == qs[i];
      var b :| 0 <= b < |ps| && ps[b] == qs[j];
      if a == b {
        CountsTwice(qs, i, j);
        CountsOnce(ps, qs[i]);
      }
    }
  }

  ghost predicate DistinctHeights(d: Deployment, ps: seq<SP1Proof>) {
    && (forall p :: p in ps ==> UpdateOf(d, p).Some?)
    && forall p, q :: p in ps && q in ps && NewHeight(d, p).revisionHeight == NewHeight(d, q).revisionHeight ==> p == q
  }

  lemma MergedLatest(d: Deployment, s: Store, ps: seq<SP1Proof>, qs: seq<SP1Proof>, t: Store, u: Store)
    requires DistinctHeights(d, ps) && Merged(d, s, ps, t) && Merged(d, s, qs, u)
    requires forall p :: p in ps <==> p in qs
    ensures t.client.latestHeight == u.client.latestHeight
  {
    if t.client.latestHeight != s.client.latestHeight {
      var p :| p in ps && NewHeight(d, p) == t.client.latestHeight;
      assert p in qs;
    }
    if u.client.latestHeight != s.client.latestHeight {
      var q :| q in qs && NewHeight(d, q) == u.client.latestHeight;
      assert q in ps;
    }
  }

  lemma MergedIsUnique(d: Deployment, s: Store, ps: seq<SP1Proof>, qs: seq<SP1Proof>, t: Store, u: Store)
    requires DistinctHeights(d, ps) && Merged(d, s, ps, t) && Merged(d, s, qs, u)
    requires forall p :: p in ps <==> p in qs
    ensures t == u
  {
    MergedLatest(d, s, ps, qs, t, u);
    forall h: uint32
      ensures h in t.hashes <==> h in u.hashes
      ensures HashAt(t, h) == HashAt(u, h)
    {
      if p :| p in ps && NewHeight(d, p).revisionHeight == h {
        assert p in qs;
      } else {
        assert forall q :: q in qs ==> NewHeight(d, q).revisionHeight != h;
      }
    }
    assert t.hashes == u.hashes by {
      forall h: uint32 | h in t.hashes
        ensures t.hashes[h] == u.hashes[h]
      {
        assert HashAt(t, h) == HashAt(u, h);
      }
    }
  }

  lemma IndependentIsDistinct(d: Deployment, s: Store, blockTime: nat, ps: seq<SP1Proof>)
    requires Independent(d, s, blockTime, ps)
    ensures DistinctHeights(d, ps)
  {
    forall p, q | p in ps && q in ps && NewHeight(d, p).revisionHeight == NewHeight(d, q).revisionHeight
      ensures p == q
    {
      var i :| 0 <= i < |ps| && ps[i] == p;
      var j :| 0 <= j < |ps| && ps[j] == q;
    }
  }

  /** Updates that are each acceptable now, for distinct heights, are all recorded in every order, and every
      order ends in the same storage. */
  lemma UpdatesCommute(d: Deployment, s: Store, blockTime: nat, ps: seq<SP1Proof>, qs: seq<SP1Proof>)
    requires forall p :: p in ps ==>
               Step(d, s, Event(blockTime, UpdateClient(Some(p)))).result == Ok(Updated(Update))
    requires forall i, j :: 0 <= i < j < |ps| ==>
               NewHeight(d, ps[i]).revisionHeight != NewHeight(d, ps[j]).revisionHeight
    requires multiset(ps) == multiset(qs)
    ensures |qs| == |ps|
    ensures forall i :: 0 <= i < |qs| ==> ResultAt(d, s, Updates(blockTime, qs), i) == Ok(Updated(Update))
    ensures Run(d, s, Updates(blockTime, qs)) == Run(d, s, Updates(blockTime, ps))
  {
    assert |multiset(ps)| == |ps| && |multiset(qs)| == |qs|;
    forall p | p in ps
      ensures Recordable(d, s, blockTime, p)
    {
      RecordableMeans(d, s, blockTime, p);
    }
    IndependentPermuted(d, s, blockTime, ps, qs);
    RunRecordsAll(d, s, blockTime, ps);
    RunRecordsAll(d, s, blockTime, qs);
    IndependentIsDistinct(d, s, blockTime, ps);
    MergedIsUnique(d, s, ps, qs, Run(d, s, Updates(blockTime, ps)), Run(d, s, Updates(blockTime, qs)));
  }
}
