/** Concrete clients that meet every assumption, and on which a property one might expect fails. */
module Examples {
  import opened Wrappers
  import opened Msgs
  import opened ClientSpec
  import opened ProgramTypes
  import opened Meaning
  import opened Conversions
  import opened Programs
  import S = Soundness

  const THIRD := TrustThreshold(1, 3)

  function Word(b: uint8): Bytes32 {
    seq(32, _ => b)
  }

  function OldState(): ConsensusState {
    ConsensusState(500, Word(0), Word(0))
  }

  function Client(): ClientState {
    ClientState("chain-1", THIRD, Height(1, 10), 1000, 2000, false)
  }

  function HeaderAt(time: int): Header {
    Header("chain-1", IcsHeight(1, 11), time, Word(0), Word(0), IcsHeight(1, 10), [])
  }

  /** A library that verifies one header, where ICS-07 would, and nothing else. */
  function OneHeader(h: Header): Library {
    Library(
      _ => true, _ => 1, _ => true,
      (trusted: IcsConsensusState, x: Header, _: string, options: Options, now: uint64) =>
        x == h && trusted.time < x.time <= now + options.clockDrift && now < trusted.time + options.trustingPeriod,
      (_, _, _, _, _, _) => false, (_, _) => false, (_, _, _, _) => false, (_, _, _) => false)
  }

  function OneInput(h: Header, env: Env): Codec {
    Codec(
      Coder(_ => [], _ => Some(OldState())), Coder(_ => [], _ => Some(h)), Coder(_ => [], _ => Some(env)),
      Coder(_ => [], _ => None), Coder(_ => [], _ => None), Coder(_ => [], _ => None))
  }

  function OneOutput(o: UpdateClientOutput): Deployment {
    Deployment(
      Word(0), Word(1), Word(1), Word(1), (p: SP1Proof) => p.vKey == Word(0) && p.proof == [],
      Abi(_ => Some(o), _ => None, _ => None, _ => None))
  }

  function Submit(blockTime: nat): Event {
    SubmitProof(blockTime, [])
  }

  function SubmitProof(blockTime: nat, proof: Bytes): Event {
    Event(blockTime, UpdateClient(Some(SP1Proof(Word(0), [], proof))))
  }

  /** Every assumption made anywhere in this project about proofs and libraries. */
  ghost predicate AllAssumptions(d: Deployment, lib: Library, c: Codec, w: S.Scene) {
    && S.Sound(d, lib, c)
    && S.VerifiesHeaders(lib) && S.AnswersOnce(lib)
    && S.VerifiesOnly(lib, w) && S.FindsNoMisbehaviour(lib, w)
  }

  lemma OneHeaderIsFine(h: Header, env: Env, o: UpdateClientOutput, w: S.Scene)
    requires h.height == IcsHeight(1, 11) && h.trustedHeight == IcsHeight(1, 10)
    requires LeadsTo(h, w.chain(11))
    requires UpdateClientMain(OneHeader(h), OneInput(h, env), [[], [], []]) == Some(o)
    ensures AllAssumptions(OneOutput(o), OneHeader(h), OneInput(h, env), w)
  {
    assert Word(0)[0] != Word(1)[0];
    assert S.UpdateCommits(OneHeader(h), OneInput(h, env), [[], [], []], o);
  }

  /** Submitting an accepted update twice is not always harmless: a header one nanosecond after its trusted state is
      recorded by the first call and freezes the client on the second. */
  lemma SameSecondExample() returns (d: Deployment, lib: Library, c: Codec, w: S.Scene, e: Event)
    ensures AllAssumptions(d, lib, c, w)
    ensures var g := Genesis(w.client, ConsensusStateHash(w.chain(10)));
            && !w.client.isFrozen && w.client.latestHeight.revisionHeight == 10
            && ResultAt(d, g, [e, e], 0) == Ok(Updated(Update))
            && ResultAt(d, g, [e, e], 1) == Ok(Updated(Misbehaviour))
            && Run(d, g, [e, e]).client.isFrozen
  {
    var h, env := HeaderAt(500 * NANOS + 1), Env("chain-1", THIRD, 1000, 600);
    var o := UpdateClientOutput(OldState(), OldState(), env, Height(1, 10), Height(1, 11));
    d, lib, c, e := OneOutput(o), OneHeader(h), OneInput(h, env), Submit(600);
    w := S.Scene(_ => OldState(), Client(), 600, 600);
    OneHeaderIsFine(h, env, o, w);

    var g := Genesis(Client(), ConsensusStateHash(OldState()));
    var s1 := RecordUpdate(g, o);
    assert [e, e][..0] == [] && [e, e][..1] == [e] && [e][..0] == [];
    assert Step(d, g, e) == Tx(Ok(Updated(Update)), s1);
    assert Run(d, g, []) == g;
    assert Run(d, g, [e]) == s1;
    assert Step(d, s1, e) == Tx(Ok(Updated(Misbehaviour)), Freeze(s1));
  }

  /** Nor does the trusting period hold for ever: the 600th second after the programs' host time has wrapped looks to
      them like the 600th second of the epoch, and an update from a state of second 500 with a period of 1000 seconds
      is recorded, 18446744173 seconds later. */
  lemma WrappedTimeExample() returns (
      d: Deployment, lib: Library, c: Codec, w: S.Scene, o: UpdateClientOutput)
    ensures AllAssumptions(d, lib, c, w)
    ensures var g := Genesis(w.client, ConsensusStateHash(w.chain(10)));
            var e := Submit(LAST_EXACT_SECOND + 600);
            && d.abi.updateClient(e.call.updateMsg.value.publicValues) == Some(o)
            && ResultAt(d, g, [e], 0) == Ok(Updated(Update))
            && HashAt(Run(d, g, [e]), 11) == ConsensusStateHash(o.newConsensusState)
            && o.trustedConsensusState.timestamp == 500 && w.client.trustingPeriod == 1000
            && o.env.now == e.blockTime == LAST_EXACT_SECOND + 600
  {
    var h, env := HeaderAt(510 * NANOS), Env("chain-1", THIRD, 1000, LAST_EXACT_SECOND + 600);
    var newState := ConsensusState(510, Word(0), Word(0));
    o := UpdateClientOutput(OldState(), newState, env, Height(1, 10), Height(1, 11));
    d, lib, c := OneOutput(o), OneHeader(h), OneInput(h, env);
    w := S.Scene(
      (x: uint32) => if x == 11 then newState else OldState(), Client(), LAST_EXACT_SECOND, LAST_EXACT_SECOND + 600);
    OneHeaderIsFine(h, env, o, w);

    var g, e := Genesis(Client(), ConsensusStateHash(OldState())), Submit(LAST_EXACT_SECOND + 600);
    var s1 := RecordUpdate(g, o);
    assert [e][..0] == [];
    assert Step(d, g, e) == Tx(Ok(Updated(Update)), s1);
    assert Run(d, g, []) == g;
    assert Run(d, g, [e]) == s1;
  }

  /** Nor does every successful update carry an accepted proof: one that is recorded already passes with a proof the
      verifier rejects. */
  lemma NoProofExample() returns (d: Deployment, lib: Library, c: Codec, w: S.Scene, e0: Event, e1: Event)
    ensures AllAssumptions(d, lib, c, w)
    ensures e1.call.UpdateClient? && e1.call.updateMsg.Some? && !d.accepts(e1.call.updateMsg.value)
    ensures var g := Genesis(w.client, ConsensusStateHash(w.chain(10)));
            && ResultAt(d, g, [e0, e1], 0) == Ok(Updated(Update))
            && ResultAt(d, g, [e0, e1], 1) == Ok(Updated(NoOp))
  {
    var h, env := HeaderAt(510 * NANOS), Env("chain-1", THIRD, 1000, 600);
    var newState := ConsensusState(510, Word(0), Word(0));
    var o := UpdateClientOutput(OldState(), newState, env, Height(1, 10), Height(1, 11));
    d, lib, c := OneOutput(o), OneHeader(h), OneInput(h, env);
    w := S.Scene((x: uint32) => if x == 11 then newState else OldState(), Client(), 600, 600);
    e0, e1 := Submit(600), SubmitProof(600, [7]);
    OneHeaderIsFine(h, env, o, w);

    var g := Genesis(Client(), ConsensusStateHash(OldState()));
    var s1 := RecordUpdate(g, o);
    assert [e0, e1][..0] == [] && [e0, e1][..1] == [e0] && [e0][..0] == [];
    assert Step(d, g, e0) == Tx(Ok(Updated(Update)), s1);
    assert Run(d, g, []) == g;
    assert Run(d, g, [e0]) == s1;
    assert Step(d, s1, e1) == Tx(Ok(Updated(NoOp)), s1);
  }
}
