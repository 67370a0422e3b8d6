/** The `SoftModem` class and the hardware it drives.

    `Board` stands for what all instances share: the timer-2 and analog-comparator
    registers the modem touches, the transmit pin, the build-time configuration and the
    static `SoftModem::activeObject` slot through which the two interrupt vectors reach
    the live instance. `SoftModem` holds the fields of one instance; its methods are
    proved against the specification functions `OnEdge`, `OnBitTimer`, `Pop` and
    `FrameBits`. */
module Modem {
  import opened Bytes
  import opened Options
  import opened Settings
  import opened RingQueue
  import opened Classifier
  import opened Framer
  import opened Transmit

  class Board {
    /** The build-time constants. */
    const cfg: Config
    /** `OCR2A`: the tick at which the next bit sample fires. */
    var ocr2a: Byte
    /** `OCIE2A` in `TIMSK2`: the bit-sample (compare) interrupt enable. */
    var ocie2a: bool
    /** `OCF2A` in `TIFR2`: a pending compare match. */
    var ocf2a: bool
    /** `TOV2` in `TIFR2`: the timer overflowed since the flag was last cleared. */
    var tov2: bool
    /** `ACIE` in `ACSR`: the comparator (crossing) interrupt enable. */
    var acie: bool
    /** The level of the transmit pin and how often it has been toggled. */
    var txLevel: bool
    var toggles: nat
    /** The bits handed to `modulate` so far, one tone burst each. */
    ghost var sent: seq<bool>
    /** `SoftModem::activeObject`. */
    var active: Option<SoftModem>

    ghost function Active(): set<object>
      reads this
    {
      if active.Some? then {active.value} else {}
    }

    ghost function ActiveBuffer(): set<object>
      reads this
    {
      if active.Some? then {active.value.recvBuffer} else {}
    }

    /** The active instance, if any, belongs to this board and is consistent. */
    ghost predicate Valid()
      reads this, Active()
    {
      cfg.Valid() && (active.Some? ==> active.value.board == this && active.value.Valid())
    }

    /** The registers after reset; no instance is active. */
    constructor (cfg: Config)
      requires cfg.Valid()
      ensures Valid() && this.cfg == cfg && active == None
      ensures ocr2a == 0 && !ocie2a && !ocf2a && !tov2 && !acie
      ensures !txLevel && toggles == 0 && sent == []
    {
      this.cfg := cfg;
      ocr2a, ocie2a, ocf2a, tov2, acie := 0, false, false, false, false;
      txLevel, toggles, sent := false, 0, [];
      active := None;
    }

    /** `ISR(ANALOG_COMP_vect)`: a crossing at tick `t` reaches the active instance's
        edge classifier; with no active instance nothing happens. */
    method AnalogCompIsr(t: Byte)
      requires Valid()
      modifies this`ocr2a, this`ocf2a, this`ocie2a, this`tov2, Active()
      ensures Valid() && active == old(active)
      ensures old(active).None? ==> unchanged(this)
      ensures active.Some? ==>
        active.value.Rx() == OnEdge(cfg, old(active.value.Rx()), t, old(tov2)) && !tov2
      ensures active.Some? ==>
        active.value.recvBufferHead == old(active.value.recvBufferHead)
        && active.value.recvBufferTail == old(active.value.recvBufferTail)
    {
      var act := active;
      if act.Some? {
        act.value.Demodulate(t);
      }
    }

    /** `ISR(TIMER2_COMPA_vect)`: first moves the compare target one bit period on from
        the previous target, whether or not an instance is active, then runs the active
        instance's bit-sample handler. */
    method TimerCompAIsr()
      requires Valid()
      modifies this`ocr2a, this`ocie2a, Active(), ActiveBuffer()
      ensures Valid() && active == old(active)
      ensures ocr2a == Wrap(old(ocr2a) + cfg.bitPeriod)
      ensures old(active).None? ==> ocie2a == old(ocie2a)
      ensures active.Some? ==>
        var m := active.value;
        (m.Rx(), m.Queue()) == OnBitTimer(old(m.Rx()).(ocr2a := ocr2a), old(m.Queue()))
    {
      ocr2a := Wrap(ocr2a + cfg.bitPeriod);
      var act := active;
      if act.Some? {
        act.value.Recv();
      }
    }
  }

  class SoftModem {
    const board: Board
    var lastTcnt: Byte
    var lastDiff: Byte
    var recvStat: Byte
    var recvBits: Byte
    var recvBufferHead: Byte
    var recvBufferTail: Byte
    const recvBuffer: array<Byte>
    var lowCount: Byte
    var highCount: Byte

    ghost predicate Valid()
      reads this
    {
      board.cfg.Valid() && recvBuffer.Length == board.cfg.bufSize
      && recvBufferHead < recvBuffer.Length && recvBufferTail < recvBuffer.Length
    }

    /** The receive state together with the timer registers the receive path programs. */
    function Rx(): RxState
      reads this, board
    {
      RxState(lastTcnt, lastDiff, lowCount, highCount, recvStat, recvBits,
              board.ocr2a, board.ocie2a, board.ocf2a)
    }

    /** The ring buffer as a value. */
    ghost function Queue(): (q: Ring)
      reads this, recvBuffer
      requires Valid()
      ensures q.Valid() && |q.slots| == board.cfg.bufSize
    {
      Ring(recvBuffer[..], recvBufferHead, recvBufferTail)
    }

    /** `SoftModem()`: the constructor does nothing; the fields start at zero, as for an
        instance in static storage. */
    constructor (board: Board)
      requires board.cfg.Valid()
      ensures Valid() && this.board == board && fresh(recvBuffer)
      ensures Queue().Items() == []
    {
      this.board := board;
      lastTcnt, lastDiff, recvStat, recvBits := 0, 0, 0, 0;
      recvBufferHead, recvBufferTail := 0, 0;
      lowCount, highCount := 0, 0;
      recvBuffer := new Byte[board.cfg.bufSize];
    }

    /** `begin()`: idle, empty ring, counters and smoothing cleared, the current tick
        `t` (`TCNT2`) as time origin, this instance active and the comparator interrupt
        enabled. `_recvBits` and the compare interrupt enable are left as they were. */
    method Begin(t: Byte)
      requires Valid()
      modifies this`recvStat, this`recvBufferHead, this`recvBufferTail, this`lastTcnt,
               this`lastDiff, this`lowCount, this`highCount, board`active, board`acie
      ensures Valid() && board.Valid()
      ensures recvBufferHead == 0 && recvBufferTail == 0 && Queue().Items() == []
      ensures Rx() == old(Rx()).(lastTcnt := t, lastDiff := 0, lowCount := 0, highCount := 0,
                                 recvStat := IDLE)
      ensures board.active == Some(this) && board.acie
    {
      recvStat := IDLE;
      recvBufferHead, recvBufferTail := 0, 0;
      board.active := Some(this);
      lastTcnt := t;
      lastDiff, lowCount, highCount := 0, 0, 0;
      board.acie := true;
    }

    /** `end()`: both interrupts disabled and no instance active, whatever the state
        before, so a second call changes nothing. */
    method End()
      requires Valid()
      modifies board`acie, board`ocie2a, board`active
      ensures board.Valid()
      ensures !board.acie && !board.ocie2a && board.active == None
    {
      board.acie := false;
      board.ocie2a := false;
      board.active := None;
    }

    /** `~SoftModem()`: calls `end()`, even when another instance is the active one. */
    method Destroy()
      requires Valid()
      modifies board`acie, board`ocie2a, board`active
      ensures board.Valid()
      ensures !board.acie && !board.ocie2a && board.active == None
    {
      End();
    }

    /** `demodulate()`, with `t` the value of `TCNT2` read on entry: measure the interval
        and drop it as noise, or hand it on. */
    method Demodulate(t: Byte)
      requires Valid()
      modifies this`lastTcnt, this`lastDiff, this`lowCount, this`highCount, this`recvStat,
               this`recvBits, board`ocr2a, board`ocf2a, board`ocie2a, board`tov2
      ensures Valid()
      ensures Rx() == OnEdge(board.cfg, old(Rx()), t, old(board.tov2))
      ensures !board.tov2
    {
      ghost var s := Rx();
      ghost var overflow := board.tov2;
      var diff: Byte;
      if board.tov2 {
        board.tov2 := false;  // writing a one clears the flag
        diff := Wrap((255 - lastTcnt) + t + 1);
      } else {
        diff := Wrap(t - lastTcnt);
      }
      assert diff == Elapsed(s.lastTcnt, t, overflow);
      if diff < board.cfg.noiseFloor {  // noise
        return;
      }
      OnEdgeAccepts(board.cfg, s, t, overflow);
      AcceptInterval(t, diff);
    }

    /** The rest of `demodulate()` for an interval of `diff` ticks above the noise floor:
        the new time origin and smoothed interval, the accumulation into the band's
        counter, and the start-bit gate. */
    method AcceptInterval(t: Byte, diff: Byte)
      requires Valid()
      modifies this`lastTcnt, this`lastDiff, this`lowCount, this`highCount, this`recvStat,
               this`recvBits, board`ocr2a, board`ocf2a, board`ocie2a
      ensures Valid()
      ensures Rx() == Accept(board.cfg, old(Rx()), t, Smooth(old(Rx()), diff))
    {
      var c := board.cfg;
      ghost var s := Rx();
      lastTcnt := t;
      var v := Wrap(diff / 2 + diff / 4 + lastDiff / 4);
      lastDiff := v;
      assert v == Smooth(s, diff);
      if c.lowMin <= v && v <= c.lowMax {
        assert Classify(c, v) == Low;
        assert lowCount + v == s.lowCount + v;
        lowCount := Wrap(lowCount + v);
        if recvStat == IDLE && lowCount >= c.startThreshold {  // maybe the start bit
          assert StartsFrame(c, s, lowCount);
          recvStat := START_BIT;
          highCount := 0;
          recvBits := 0;
          board.ocr2a := Wrap(t + c.bitPeriod - lowCount);  // one bit period after the start
          board.ocf2a := false;
          board.ocie2a := true;
          assert board.ocr2a == FirstSample(t, c.bitPeriod, lowCount);
          AcceptStart(c, s, t, v);
        } else {
          assert !StartsFrame(c, s, lowCount);
        }
      } else if c.highMin <= v && v <= c.highMax {
        assert Classify(c, v) == High;
        highCount := Wrap(highCount + v);
      } else {
        assert Classify(c, v) == Miss;
      }
    }

    /** `recv()`: one bit sample, with the push into the ring on the stop bit. */
    method Recv()
      requires Valid()
      modifies this`recvStat, this`recvBits, this`lowCount, this`highCount,
               this`recvBufferTail, recvBuffer, board`ocie2a
      ensures Valid()
      ensures (Rx(), Queue()) == OnBitTimer(old(Rx()), old(Queue()))
    {
      var high := highCount > lowCount;
      var endRecv := false;
      if recvStat == START_BIT {
        if !high {
          recvStat := recvStat + 1;
        } else {
          endRecv := true;
        }
      } else if D0_BIT <= recvStat && recvStat <= D7_BIT {
        recvBits := recvBits / 2;
        if high {
          recvBits := recvBits + 0x80;  // `|= 0x80` on a value below 0x80
        }
        recvStat := recvStat + 1;
      } else if recvStat == PARITY_BIT {
        recvStat := recvStat + 1;
      } else if recvStat == STOP_BIT {
        var newTail := (recvBufferTail + 1) % board.cfg.bufSize;
        if newTail != recvBufferHead {
          recvBuffer[recvBufferTail] := recvBits;
          recvBufferTail := newTail;
        }
        endRecv := true;
      }
      if !endRecv {
        if high {
          highCount := 0;
        } else {
          lowCount := 0;
        }
        return;
      }
      recvStat := IDLE;
      lowCount := 0;
      board.ocie2a := false;
    }

    /** `available()`: the number of bytes waiting, at most `N - 1`. */
    function Available(): (n: Byte)
      reads this, recvBuffer
      requires Valid()
      ensures n == |Queue().Items()| && n < board.cfg.bufSize
      ensures n == 0 <==> recvBufferHead == recvBufferTail
    {
      (recvBufferTail + board.cfg.bufSize - recvBufferHead) % board.cfg.bufSize
    }

    /** `read()`: -1 when the ring is empty, otherwise the oldest byte, which is removed. */
    method Read() returns (r: int)
      requires Valid()
      modifies this`recvBufferHead
      ensures Valid()
      ensures (r, Queue()) == Pop(old(Queue()))
    {
      if recvBufferHead == recvBufferTail {
        return -1;
      }
      r := recvBuffer[recvBufferHead];
      recvBufferHead := (recvBufferHead + 1) % board.cfg.bufSize;
    }

    /** `modulate(b)`: one tone burst, toggling the pin `ToggleCount` times. The busy-wait
        between toggles is not modelled. */
    method Modulate(b: bool)
      modifies board`txLevel, board`toggles, board`sent
      ensures board.sent == old(board.sent) + [b]
      ensures board.toggles == old(board.toggles) + ToggleCount(Cycles(board.cfg, b))
      ensures board.txLevel == old(board.txLevel)
    {
      var cnt: Byte := if b then Wrap(board.cfg.highCycles * 2) else Wrap(board.cfg.lowCycles * 2);
      ghost var n := ToggleCount(Cycles(board.cfg, b));
      cnt := Wrap(cnt - 1);
      board.txLevel := !board.txLevel;
      board.toggles := board.toggles + 1;
      while cnt != 0
        invariant board.sent == old(board.sent)
        invariant board.toggles >= old(board.toggles)
        invariant board.toggles - old(board.toggles) + cnt == n
        invariant board.txLevel ==
          if (board.toggles - old(board.toggles)) % 2 == 0 then old(board.txLevel) else !old(board.txLevel)
        decreases cnt
      {
        cnt := cnt - 1;
        board.txLevel := !board.txLevel;
        board.toggles := board.toggles + 1;
      }
      board.sent := board.sent + [b];
    }

    /** `write(data)`: the thirteen bursts of one frame. */
    method Write(data: Byte)
      modifies board`txLevel, board`toggles, board`sent
      ensures board.sent == old(board.sent) + FrameBits(data)
      ensures board.toggles == old(board.toggles) + BurstToggles(board.cfg, FrameBits(data))
      ensures board.txLevel == old(board.txLevel)
    {
      ghost var bits := DataBits(data);
      ghost var sent0, toggles0 := board.sent, board.toggles;
      ghost var out: seq<bool> := [];
      var parity: Byte := 0;
      EmitStep(board.cfg, sent0, out, true);
      Modulate(true);   // synchronisation (carrier) bit
      out := out + [true];
      EmitStep(board.cfg, sent0, out, false);
      Modulate(false);  // start bit
      out := out + [false];
      var mask: Byte := 1;
      ghost var i := 0;
      while mask != 0
        invariant 0 <= i <= 8
        invariant mask == if i < 8 then Pow2(i) else 0
        invariant parity == Ones(bits[..i]) <= i
        invariant out == [true, false] + bits[..i]
        invariant board.sent == sent0 + out
        invariant board.toggles == toggles0 + BurstToggles(board.cfg, out)
        invariant board.txLevel == old(board.txLevel)
        decreases 8 - i
      {
        ShiftMask(i);
        DataBitsAt(data, i);
        DataStep([true, false], bits, i);
        // the bit under the mask: a set bit counts towards the parity and is sent high
        var high := (data / mask) % 2 == 1;
        if high {
          parity := parity + 1;
        }
        EmitStep(board.cfg, sent0, out, high);
        Modulate(high);
        out := out + [high];
        mask := Wrap(mask * 2);
        i := i + 1;
      }
      assert bits[..i] == bits;
      FrameAssembled(data, out, parity % 2 == 1);
      EmitStep(board.cfg, sent0, out, parity % 2 == 1);
      Modulate(parity % 2 == 1);  // parity bit, `parity & 1`
      out := out + [parity % 2 == 1];
      EmitStep(board.cfg, sent0, out, true);
      Modulate(true);             // stop bit
      out := out + [true];
      EmitStep(board.cfg, sent0, out, true);
      Modulate(true);             // trailing bit
      out := out + [true];
    }
  }
}
