/** The edge classifier, `SoftModem::demodulate`, run on every comparator crossing:
    measure the interval since the previous crossing, drop noise, smooth, classify the
    smoothed interval as a low or high tone, accumulate it, and arm the bit timer when a
    start bit's worth of low tone has built up while idle. */
module Classifier {
  import opened Bytes
  import opened Settings

  /** `_recvStat` while no frame is being received. */
  const IDLE: Byte := 0xff
  /** `FSK_START_BIT`. */
  const START_BIT: Byte := 0

  /** The fields the receive path reads and writes: the object's own (`_lastTCNT`,
      `_lastDiff`, `_lowCount`, `_highCount`, `_recvStat`, `_recvBits`) and the timer-2
      registers it programs (`OCR2A`, the `OCIE2A` enable, the pending `OCF2A` flag). */
  datatype RxState = RxState(
    lastTcnt: Byte,
    lastDiff: Byte,
    lowCount: Byte,
    highCount: Byte,
    recvStat: Byte,
    recvBits: Byte,
    ocr2a: Byte,
    ocie2a: bool,
    ocf2a: bool)

  /** Ticks between the previous crossing at `last` and the crossing at `t`. The two
      source branches (timer overflowed since, or not) compute the same value: the unique
      byte that carries `last` to `t` modulo 256. */
  function Elapsed(last: Byte, t: Byte, overflow: bool): Byte
  {
    if overflow then Wrap((255 - last) + t + 1) else Wrap(t - last)
  }

  lemma ElapsedWraps(last: Byte, t: Byte, overflow: bool)
    ensures (last + Elapsed(last, t, overflow)) % 256 == t
  {
  }

  /** The new `_lastDiff` for an interval of `d` ticks: half plus a quarter of the new
      interval plus a quarter of the previous smoothed one, each halving rounded down,
      stored into a `uint8_t`. The sum never exceeds 253, so the store never
      wraps. */
  function Smooth(s: RxState, d: Byte): Byte
  {
    Wrap(d / 2 + d / 4 + s.lastDiff / 4)
  }

  lemma SmoothBounds(s: RxState, d: Byte)
    ensures var v := Smooth(s, d);
      v <= 253 && 4 * v <= 3 * d + s.lastDiff <= 4 * v + 8
  {
  }

  datatype Band = Low | High | Miss

  /** The low band is tested first, so a value inside both bands is a low tone. */
  function Classify(c: Config, s: Byte): (b: Band)
    ensures b == Low <==> c.lowMin <= s <= c.lowMax
    ensures b == High <==> !(c.lowMin <= s <= c.lowMax) && c.highMin <= s <= c.highMax
  {
    if c.lowMin <= s <= c.lowMax then Low
    else if c.highMin <= s <= c.highMax then High
    else Miss
  }

  /** The compare target for the first bit sample: one bit period after the estimated
      start of the start bit, which lies `lowCount` ticks before `t`, modulo 256. */
  function FirstSample(t: Byte, bitPeriod: Byte, lowCount: Byte): Byte
  {
    Wrap(t + bitPeriod - lowCount)
  }

  lemma FirstSampleWraps(t: Byte, bitPeriod: Byte, lowCount: Byte)
    ensures (FirstSample(t, bitPeriod, lowCount) + lowCount) % 256 == (t + bitPeriod) % 256
  {
  }

  /** In the default build the two tone bands share the value 40; since the low band is
      tested first, such an interval counts as low tone. */
  lemma DefaultBandsOverlap()
    ensures var c := Default8MHz();
      c.lowMin <= 40 <= c.lowMax && c.highMin <= 40 <= c.highMax && Classify(c, 40) == Low
  {
  }

  /** The start gate, tested after the low-tone accumulation. */
  predicate StartsFrame(c: Config, s: RxState, low: Byte)
  {
    s.recvStat == IDLE && low >= c.startThreshold
  }

  /** The effect of one comparator crossing at tick `t`, `overflow` being the timer's
      TOV2 flag. */
  function OnEdge(c: Config, s: RxState, t: Byte, overflow: bool): (s': RxState)
    ensures Elapsed(s.lastTcnt, t, overflow) < c.noiseFloor ==> s' == s
    ensures s'.recvStat != s.recvStat ==>
      s.recvStat == IDLE && s'.recvStat == START_BIT && s'.lowCount >= c.startThreshold && s'.ocie2a
    ensures s.ocie2a ==> s'.ocie2a
    ensures s'.recvBits == s.recvBits || s'.recvBits == 0
  {
    var d := Elapsed(s.lastTcnt, t, overflow);
    if d < c.noiseFloor then s else Accept(c, s, t, Smooth(s, d))
  }

  /** An accepted crossing at tick `t` whose smoothed interval is `v`. */
  function Accept(c: Config, s: RxState, t: Byte, v: Byte): (s': RxState)
    ensures s'.lastTcnt == t && s'.lastDiff == v
    ensures s'.recvStat != s.recvStat ==>
      s.recvStat == IDLE && s'.recvStat == START_BIT && s'.lowCount >= c.startThreshold && s'.ocie2a
    ensures s.ocie2a ==> s'.ocie2a
    ensures s'.recvBits == s.recvBits || s'.recvBits == 0
  {
    var s1 := s.(lastTcnt := t, lastDiff := v);
    match Classify(c, v)
    case Low =>
      var low := Wrap(s.lowCount + v);
      if StartsFrame(c, s, low) then
        s1.(lowCount := low, recvStat := START_BIT, highCount := 0, recvBits := 0,
            ocr2a := FirstSample(t, c.bitPeriod, low), ocf2a := false, ocie2a := true)
      else
        s1.(lowCount := low)
    case High => s1.(highCount := Wrap(s.highCount + v))
    case Miss => s1
  }

  /** A crossing at least `noiseFloor` ticks after the previous one is accepted. */
  lemma OnEdgeAccepts(c: Config, s: RxState, t: Byte, overflow: bool)
    requires Elapsed(s.lastTcnt, t, overflow) >= c.noiseFloor
    ensures OnEdge(c, s, t, overflow) == Accept(c, s, t, Smooth(s, Elapsed(s.lastTcnt, t, overflow)))
  {
  }

  /** The crossing that starts a frame, field by field. */
  lemma AcceptStart(c: Config, s: RxState, t: Byte, v: Byte)
    requires Classify(c, v) == Low && StartsFrame(c, s, Wrap(s.lowCount + v))
    ensures var low := Wrap(s.lowCount + v);
      Accept(c, s, t, v)
        == RxState(t, v, low, 0, START_BIT, 0, FirstSample(t, c.bitPeriod, low), true, false)
  {
  }

  /** An interval at or above the noise floor moves the time origin to `t`, updates the
      smoothed interval, and adds the smoothed interval (mod 256) to exactly the counter of
      its band, or to neither on a miss. Only the start of a frame also clears `highCount`. */
  lemma AcceptedEdge(c: Config, s: RxState, t: Byte, overflow: bool)
    requires Elapsed(s.lastTcnt, t, overflow) >= c.noiseFloor
    ensures var s' := OnEdge(c, s, t, overflow);
      var v := Smooth(s, Elapsed(s.lastTcnt, t, overflow));
      && s'.lastTcnt == t && s'.lastDiff == v
      && (Classify(c, v) == Low ==>
            s'.lowCount == Wrap(s.lowCount + v)
            && s'.highCount == (if StartsFrame(c, s, s'.lowCount) then 0 else s.highCount))
      && (Classify(c, v) == High ==>
            s'.highCount == Wrap(s.highCount + v) && s'.lowCount == s.lowCount)
      && (Classify(c, v) == Miss ==>
            s'.highCount == s.highCount && s'.lowCount == s.lowCount)
  {
  }

  /** The frame starts on this crossing exactly when the receiver is idle, the interval is
      accepted and classified low, and the low-tone total reaches the start threshold; it
      then programs the first bit sample, clears the stale compare flag, enables the
      compare interrupt and clears `highCount` and `recvBits`. Otherwise the registers are
      left alone. */
  lemma StartGate(c: Config, s: RxState, t: Byte, overflow: bool)
    ensures var s' := OnEdge(c, s, t, overflow);
      var d := Elapsed(s.lastTcnt, t, overflow);
      var v := Smooth(s, d);
      var starts := d >= c.noiseFloor && Classify(c, v) == Low && StartsFrame(c, s, Wrap(s.lowCount + v));
      && (starts ==>
            s'.recvStat == START_BIT && s'.highCount == 0 && s'.recvBits == 0
            && s'.ocr2a == FirstSample(t, c.bitPeriod, s'.lowCount) && !s'.ocf2a && s'.ocie2a)
      && (!starts ==>
            s'.recvStat == s.recvStat && s'.recvBits == s.recvBits
            && s'.ocr2a == s.ocr2a && s'.ocf2a == s.ocf2a && s'.ocie2a == s.ocie2a)
  {
    var d := Elapsed(s.lastTcnt, t, overflow);
    if d >= c.noiseFloor {
      var v := Smooth(s, d);
      assert OnEdge(c, s, t, overflow) == Accept(c, s, t, v);
      match Classify(c, v)
      case Low =>
        if StartsFrame(c, s, Wrap(s.lowCount + v)) {
          AcceptStart(c, s, t, v);
        }
      case High =>
      case Miss =>
    }
  }

  /** While idle, low-tone energy below the start threshold never leaves the idle state,
      whatever tone follows. */
  lemma IdleBelowThreshold(c: Config, s: RxState, t: Byte, overflow: bool)
    requires s.recvStat == IDLE
    requires OnEdge(c, s, t, overflow).lowCount < c.startThreshold
    ensures OnEdge(c, s, t, overflow).recvStat == IDLE
  {
  }

  /** A comparator crossing: the timer value and the overflow flag seen by the handler. */
  datatype Edge = Edge(tick: Byte, overflow: bool)

  /** The crossings of `es`, handled in order. */
  function OnEdges(c: Config, s: RxState, es: seq<Edge>): RxState
    decreases |es|
  {
    if es == [] then s else OnEdges(c, OnEdge(c, s, es[0].tick, es[0].overflow), es[1..])
  }

  /** Crossings alone never move a frame in progress: only the bit timer advances
      `recvStat`. From idle they can only start a frame, and they never disable the bit
      timer. */
  lemma {:induction false} EdgesKeepFrameState(c: Config, s: RxState, es: seq<Edge>)
    ensures var s' := OnEdges(c, s, es);
      && (s.recvStat != IDLE ==> s'.recvStat == s.recvStat)
      && (s.recvStat == IDLE ==> s'.recvStat == IDLE || s'.recvStat == START_BIT)
      && (s.ocie2a ==> s'.ocie2a)
    decreases |es|
  {
    if es != [] {
      EdgesKeepFrameState(c, OnEdge(c, s, es[0].tick, es[0].overflow), es[1..]);
    }
  }
}
