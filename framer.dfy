/** The frame state machine, `SoftModem::recv`, run once per bit period by the timer-2
    compare interrupt: decide the bit from the accumulated tone energy, step through
    Start, D0..D7, Parity and Stop, and on Stop push the assembled byte into the ring. */
module Framer {
  import opened Bytes
  import opened Options
  import opened Settings
  import opened RingQueue
  import opened Classifier

  /** `FSK_D0_BIT`, `FSK_D7_BIT`, `FSK_PARITY_BIT`, `FSK_STOP_BIT`. */
  const D0_BIT: Byte := 1
  const D7_BIT: Byte := 8
  const PARITY_BIT: Byte := 9
  const STOP_BIT: Byte := 10

  /** The bit decision: high exactly when the high tone built up strictly more energy in
      the window than the low tone; a tie is low. */
  function Decide(lowCount: Byte, highCount: Byte): (high: bool)
    ensures high ==> highCount > lowCount
    ensures !high ==> lowCount >= highCount
  {
    highCount > lowCount
  }

  /** One step of the frame: either the frame goes on in a new state, or it ends (the
      `end_recv` path), delivering a byte when it ends on the stop bit. */
  datatype Step = Advance(recvStat: Byte, recvBits: Byte) | Finish(deliver: Option<Byte>)

  function Transition(recvStat: Byte, recvBits: Byte, high: bool): (r: Step)
    ensures r.Finish? <==> (recvStat == START_BIT && high) || recvStat == STOP_BIT
    ensures r.Finish? ==> (r.deliver.Some? <==> recvStat == STOP_BIT)
    ensures r.Finish? && r.deliver.Some? ==> r.deliver.value == recvBits
    ensures r.Advance? && recvStat < STOP_BIT ==> r.recvStat == recvStat + 1
    ensures r.Advance? && recvStat > STOP_BIT ==> r == Advance(recvStat, recvBits)
    ensures r.Advance? && !(D0_BIT <= recvStat <= D7_BIT) ==> r.recvBits == recvBits
    ensures r.Advance? && D0_BIT <= recvStat <= D7_BIT ==> r.recvBits == ShiftIn(recvBits, high)
  {
    if recvStat == START_BIT then
      if !high then Advance(recvStat + 1, recvBits) else Finish(None)
    else if D0_BIT <= recvStat <= D7_BIT then
      Advance(recvStat + 1, ShiftIn(recvBits, high))
    else if recvStat == PARITY_BIT then
      Advance(recvStat + 1, recvBits)
    else if recvStat == STOP_BIT then
      Finish(Some(recvBits))
    else
      Advance(recvStat, recvBits)
  }

  /** The effect of one bit-sample interrupt on the receive state and the ring. */
  function OnBitTimer(s: RxState, q: Ring): (r: (RxState, Ring))
    requires q.Valid()
    ensures r.1.Valid() && |r.1.slots| == |q.slots|
  {
    var high := Decide(s.lowCount, s.highCount);
    match Transition(s.recvStat, s.recvBits, high)
    case Advance(st, bits) =>
      var s' := s.(recvStat := st, recvBits := bits);
      if high then (s'.(highCount := 0), q) else (s'.(lowCount := 0), q)
    case Finish(deliver) =>
      var q' := if deliver.Some? then Push(q, deliver.value) else q;
      (s.(recvStat := IDLE, lowCount := 0, ocie2a := false), q')
  }

  /** What a bit sample never touches and what it can do to the rest: a step that goes on
      zeroes only the counter of the decided tone; the end of a frame sets the idle state,
      zeroes only `lowCount` and disables the compare interrupt; the ring at most gains the
      assembled byte at its end. */
  lemma BitTimerFrame(s: RxState, q: Ring)
    requires q.Valid()
    ensures var (s', q') := OnBitTimer(s, q);
      && s'.lastTcnt == s.lastTcnt && s'.lastDiff == s.lastDiff
      && s'.ocr2a == s.ocr2a && s'.ocf2a == s.ocf2a
      && (s'.lowCount == 0 || s'.highCount == 0)
      && (s'.lowCount == s.lowCount || s'.lowCount == 0)
      && (s'.highCount == s.highCount || s'.highCount == 0)
      && (s'.ocie2a ==> s.ocie2a)
      && (q'.Items() == q.Items() || q'.Items() == q.Items() + [s.recvBits])
  {
    PushItems(q, s.recvBits);
  }

  /** How each state handles the decided bit, and what the counters and the ring become. */
  lemma BitTimerSteps(s: RxState, q: Ring)
    requires q.Valid()
    ensures var high := Decide(s.lowCount, s.highCount);
      var (s', q') := OnBitTimer(s, q);
      && (s.recvStat == START_BIT && !high ==>
            s'.recvStat == D0_BIT && s'.lowCount == 0 && s'.highCount == s.highCount && q' == q)
      && (s.recvStat == START_BIT && high ==>
            s'.recvStat == IDLE && s'.lowCount == 0 && s'.highCount == s.highCount
            && !s'.ocie2a && q' == q)
      && (D0_BIT <= s.recvStat <= D7_BIT ==>
            s'.recvStat == s.recvStat + 1 && s'.recvBits == ShiftIn(s.recvBits, high) && q' == q)
      && (s.recvStat == PARITY_BIT ==> s'.recvStat == STOP_BIT && q' == q)
      && ((s.recvStat == START_BIT && !high) || D0_BIT <= s.recvStat <= PARITY_BIT ==>
            s'.ocie2a == s.ocie2a)
      && ((s.recvStat == START_BIT && high) || s.recvStat == STOP_BIT ==> s'.recvBits == s.recvBits)
      && ((s.recvStat == START_BIT && !high) || s.recvStat == PARITY_BIT ==> s'.recvBits == s.recvBits)
      && (D0_BIT <= s.recvStat <= PARITY_BIT ==>
            if high then s'.highCount == 0 && s'.lowCount == s.lowCount
            else s'.lowCount == 0 && s'.highCount == s.highCount)
      && (s.recvStat == STOP_BIT ==>
            s'.recvStat == IDLE && s'.lowCount == 0 && s'.highCount == s.highCount
            && !s'.ocie2a && q' == Push(q, s.recvBits))
      && (s.recvStat > STOP_BIT ==>
            s'.recvStat == s.recvStat && s'.recvBits == s.recvBits && q' == q
            && s'.ocie2a == s.ocie2a
            && (if high then s'.highCount == 0 && s'.lowCount == s.lowCount
                else s'.lowCount == 0 && s'.highCount == s.highCount))
  {
  }

  /** Runs the frame over a sequence of bit decisions until it ends. */
  function Run(recvStat: Byte, recvBits: Byte, ds: seq<bool>): Step
    decreases |ds|
  {
    if ds == [] then Advance(recvStat, recvBits)
    else match Transition(recvStat, recvBits, ds[0])
      case Finish(x) => Finish(x)
      case Advance(st, bits) => Run(st, bits, ds[1..])
  }

  /** The data states shift the decisions in one by one. */
  lemma {:induction false} RunData(recvStat: Byte, recvBits: Byte, ds: seq<bool>, rest: seq<bool>)
    requires D0_BIT <= recvStat && recvStat + |ds| == PARITY_BIT
    ensures Run(recvStat, recvBits, ds + rest) == Run(PARITY_BIT, ShiftAll(recvBits, ds), rest)
    decreases |ds|
  {
    if ds != [] {
      assert (ds + rest)[0] == ds[0] && (ds + rest)[1..] == ds[1..] + rest;
      RunData(recvStat + 1, ShiftIn(recvBits, ds[0]), ds[1..], rest);
    } else {
      assert ds + rest == rest;
    }
  }

  /** LSB-first reconstruction: from the start state, a low start decision followed by
      eight data decisions, a parity decision and a stop decision delivers the byte whose
      bit i is the i-th data decision, whatever `recvBits` held and whatever the parity
      and stop decisions are. */
  lemma DecodeFrame(recvBits: Byte, ds: seq<bool>)
    requires |ds| == 11 && !ds[0]
    ensures LsbValue(ds[1..9]) < 256
    ensures Run(START_BIT, recvBits, ds) == Finish(Some(LsbValue(ds[1..9])))
  {
    var data := ds[1..9];
    assert ds[1..] == data + ds[9..];
    RunData(D0_BIT, recvBits, data, ds[9..]);
    ShiftEight(recvBits, data);
    LsbValueBound(data);
  }

  /** A high start decision is a false start: the frame ends and nothing is delivered. */
  lemma FalseStart(recvBits: Byte, ds: seq<bool>)
    requires |ds| > 0 && ds[0]
    ensures Run(START_BIT, recvBits, ds) == Finish(None)
  {
  }

  /** Outside a frame the bit timer changes neither the state nor the assembled bits. */
  lemma {:induction false} IdleAbsorbs(recvStat: Byte, recvBits: Byte, ds: seq<bool>)
    requires recvStat > STOP_BIT
    ensures Run(recvStat, recvBits, ds) == Advance(recvStat, recvBits)
    decreases |ds|
  {
    if ds != [] {
      IdleAbsorbs(recvStat, recvBits, ds[1..]);
    }
  }

  /** The tone energies `(lowCount, highCount)` the crossings built up by one bit sample. */
  datatype Sample = Sample(low: Byte, high: Byte)

  /** The decision each sample yields. */
  function Decisions(ss: seq<Sample>): (ds: seq<bool>)
    ensures |ds| == |ss|
    ensures forall k :: 0 <= k < |ss| ==> ds[k] == Decide(ss[k].low, ss[k].high)
  {
    seq(|ss|, k requires 0 <= k < |ss| => Decide(ss[k].low, ss[k].high))
  }

  /** Bit-sample interrupts, the counters holding the energies of `ss[k]` when the k-th fires. */
  function Timers(s: RxState, q: Ring, ss: seq<Sample>): (r: (RxState, Ring))
    requires q.Valid()
    ensures r.1.Valid()
    decreases |ss|
  {
    if ss == [] then (s, q)
    else
      var (s', q') := OnBitTimer(s.(lowCount := ss[0].low, highCount := ss[0].high), q);
      Timers(s', q', ss[1..])
  }

  /** Once idle, further samples neither change the frame state nor the ring. */
  lemma {:induction false} TimersIdle(s: RxState, q: Ring, ss: seq<Sample>)
    requires q.Valid() && s.recvStat == IDLE
    ensures Timers(s, q, ss).0.recvStat == IDLE && Timers(s, q, ss).1 == q
    decreases |ss|
  {
    if ss != [] {
      var (s', q') := OnBitTimer(s.(lowCount := ss[0].low, highCount := ss[0].high), q);
      assert s'.recvStat == IDLE && q' == q;
      TimersIdle(s', q', ss[1..]);
    }
  }

  /** The interrupts follow the frame state machine: while the frame goes on the ring is
      untouched, and when it ends the receiver is idle and the ring has gained the
      delivered byte, if any. */
  lemma {:induction false} TimersFollowRun(s: RxState, q: Ring, ss: seq<Sample>)
    requires q.Valid() && s.recvStat != IDLE
    ensures var (s', q') := Timers(s, q, ss);
      match Run(s.recvStat, s.recvBits, Decisions(ss))
      case Advance(st, bits) =>
        s'.recvStat == st && s'.recvBits == bits && s'.ocie2a == s.ocie2a && q' == q
      case Finish(x) => s'.recvStat == IDLE && q' == (if x.Some? then Push(q, x.value) else q)
    decreases |ss|
  {
    if ss != [] {
      var ds := Decisions(ss);
      var s0 := s.(lowCount := ss[0].low, highCount := ss[0].high);
      var (s', q') := OnBitTimer(s0, q);
      assert ds[0] == Decide(s0.lowCount, s0.highCount);
      assert Decisions(ss[1..]) == ds[1..];
      match Transition(s.recvStat, s.recvBits, ds[0])
      case Finish(x) =>
        TimersIdle(s', q', ss[1..]);
      case Advance(st, bits) =>
        assert s'.recvStat == st && s'.recvBits == bits && s'.ocie2a == s.ocie2a && q' == q;
        TimersFollowRun(s', q', ss[1..]);
    }
  }

  /** The three frames of the debug harness (start, eight data, parity, stop decisions)
      decode to 0xA5, 0x77 and 0xEE. */
  lemma DebugFrameA5(recvBits: Byte, ds: seq<bool>)
    requires ds == [false, true, false, true, false, false, true, false, true, true, true]
    ensures Run(START_BIT, recvBits, ds) == Finish(Some(0xA5))
  {
    DecodeFrame(recvBits, ds);
    LsbValueEight(ds[1..9]);
  }

  lemma DebugFrame77(recvBits: Byte, ds: seq<bool>)
    requires ds == [false, true, true, true, false, true, true, true, false, true, true]
    ensures Run(START_BIT, recvBits, ds) == Finish(Some(0x77))
  {
    DecodeFrame(recvBits, ds);
    LsbValueEight(ds[1..9]);
  }

  lemma DebugFrameEE(recvBits: Byte, ds: seq<bool>)
    requires ds == [false, false, true, true, true, false, true, true, true, true, true]
    ensures Run(START_BIT, recvBits, ds) == Finish(Some(0xEE))
  {
    DecodeFrame(recvBits, ds);
    LsbValueEight(ds[1..9]);
  }
}
