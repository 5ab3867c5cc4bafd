/** Between the contract's structs and the ICS-07 types of the programs: time in whole seconds against time in
    nanoseconds, 32-bit against 64-bit heights. A conversion that panics has no value. */
module Conversions {
  import opened Wrappers
  import opened Msgs
  import opened ProgramTypes
  import opened Meaning

  const NANOS := 1_000_000_000
  const U64 := 0x1_0000_0000_0000_0000

  /** The last second of the year 9999, the end of the range of the time type. */
  const LAST_SECOND := 253402300799

  /** The greatest number of seconds whose nanoseconds fit in 64 bits. */
  const LAST_EXACT_SECOND := 18446744073

  function UnixSeconds(time: int): int {
    time / NANOS
  }

  /** The cast of signed seconds to an unsigned word. */
  function AsU64(seconds: int): uint64 {
    seconds % U64
  }

  function ToSol(cs: IcsConsensusState): Option<ConsensusState> {
    if |cs.root| == 32 && |cs.nextValidatorsHash| == 32
    then Some(ConsensusState(AsU64(UnixSeconds(cs.time)), cs.root, cs.nextValidatorsHash))
    else None
  }

  function FromSol(cs: ConsensusState): Option<IcsConsensusState> {
    if cs.timestamp <= LAST_SECOND
    then Some(IcsConsensusState(cs.timestamp * NANOS, cs.root, cs.nextValidatorsHash))
    else None
  }

  function Narrow(h: IcsHeight): Option<Height> {
    if h.revisionNumber < 0x1_0000_0000 && h.revisionHeight < 0x1_0000_0000
    then Some(Height(h.revisionNumber, h.revisionHeight))
    else None
  }

  function Widen(h: Height): IcsHeight {
    IcsHeight(h.revisionNumber, h.revisionHeight)
  }

  /** The programs' host time: a 64-bit product, which wraps around. */
  function HostTimestamp(env: Env): uint64 {
    env.now * NANOS % U64
  }

  /** Both conversions, without the names they are computed with. */
  lemma ConversionsMean(ics: IcsConsensusState, cs: ConsensusState)
    ensures ToSol(ics) == Some(cs) <==> Shows(ics, cs)
    ensures FromSol(cs) == if cs.timestamp <= 253402300799 then Some(IcsOf(cs)) else None
  {
  }

  /** A contract state survives the way there and back, and goes there exactly when its second has a date. */
  lemma SolRoundTrip(cs: ConsensusState)
    ensures FromSol(cs).Some? <==> cs.timestamp <= 253402300799
    ensures FromSol(cs).Some? ==> ToSol(FromSol(cs).value) == Some(cs)
  {
  }

  /** An ICS state comes back cut down to its second, and comes back at all exactly when it is not before the
      epoch: an earlier time turns into a second past every date. */
  lemma IcsRoundTrip(cs: IcsConsensusState)
    requires -NANOS * LAST_SECOND <= cs.time < NANOS * (LAST_SECOND + 1)
    requires |cs.root| == 32 && |cs.nextValidatorsHash| == 32
    ensures ToSol(cs).Some?
    ensures FromSol(ToSol(cs).value)
            == if cs.time >= 0 then Some(cs.(time := cs.time - cs.time % NANOS)) else None
  {
    FloorBounds(cs.time);
    if cs.time < 0 {
      AsU64OfNegative(UnixSeconds(cs.time));
    }
  }

  lemma FloorBounds(time: int)
    ensures UnixSeconds(time) * NANOS <= time < (UnixSeconds(time) + 1) * NANOS
    ensures time == UnixSeconds(time) * NANOS + time % NANOS
  {
  }

  lemma AsU64OfNegative(seconds: int)
    requires -U64 <= seconds < 0
    ensures AsU64(seconds) == seconds + U64
  {
  }

  /** Seconds keep the order of times but not its strictness: a later time has a later second exactly when a
      whole second begins in between. */
  lemma SecondsAreMonotone(t1: int, t2: int)
    requires t1 <= t2
    ensures UnixSeconds(t1) <= UnixSeconds(t2)
    ensures UnixSeconds(t1) < UnixSeconds(t2) <==> exists k :: t1 < k * NANOS <= t2
  {
    FloorBounds(t1);
    FloorBounds(t2);
    if UnixSeconds(t1) < UnixSeconds(t2) {
      assert t1 < UnixSeconds(t2) * NANOS <= t2;
    }
    if k :| t1 < k * NANOS <= t2 {
      assert UnixSeconds(t1) < k <= UnixSeconds(t2);
    }
  }

  /** The product is exact precisely up to the year 2554. */
  lemma HostTimestampExact(env: Env)
    ensures HostTimestamp(env) <= env.now * 1_000_000_000
    ensures HostTimestamp(env) == env.now * 1_000_000_000 <==> env.now <= 18446744073
  {
  }

  /** Past that second the product has lost at least one whole round of the word. */
  lemma HostTimestampWraps(env: Env)
    requires env.now > LAST_EXACT_SECOND
    ensures HostTimestamp(env) <= env.now * NANOS - U64
  {
  }

  /** Up to then, comparing nanoseconds is comparing seconds: whether a header is from the past, and whether the
      trusted state has expired. */
  lemma ComparisonsAgree(env: Env, trusted: ConsensusState, headerTime: nat)
    requires env.now <= LAST_EXACT_SECOND
    ensures headerTime <= HostTimestamp(env) ==> UnixSeconds(headerTime) <= env.now
    ensures headerTime < HostTimestamp(env) <==> UnixSeconds(headerTime) < env.now
    ensures HostTimestamp(env) < trusted.timestamp * NANOS + env.trustingPeriod * NANOS
            <==> env.now < trusted.timestamp + env.trustingPeriod
  {
    HostTimestampExact(env);
    FloorBounds(headerTime);
  }

  lemma NarrowWiden(h: IcsHeight, n: Height)
    ensures Narrow(h) == Some(n) <==> h == Widen(n)
  {
  }
}
