/** Transmit framing: what `SoftModem::write` hands to `SoftModem::modulate`, and how many
    times `modulate` toggles the output pin per bit. */
module Transmit {
  import opened Bytes
  import opened Options
  import opened Settings
  import opened Classifier
  import opened RingQueue
  import opened Framer

  /** The eight data bits of `d`, least significant first. */
  function DataBits(d: Byte): (bs: seq<bool>)
    ensures |bs| == 8
  {
    Bits(d, 8)
  }

  /** `parity & 1` after `write` counted the set data bits: the even-parity bit. */
  function Parity(d: Byte): (p: bool)
    ensures (Ones(DataBits(d)) + (if p then 1 else 0)) % 2 == 0
  {
    Ones(DataBits(d)) % 2 == 1
  }

  /** The bits of one frame in the order `write(d)` modulates them: a high carrier bit,
      a low start bit, eight data bits LSB first, the parity bit, a high stop bit and a
      high trailing bit. */
  function FrameBits(d: Byte): (bs: seq<bool>)
    ensures |bs| == 13
    ensures bs[0] && !bs[1] && bs[11] && bs[12]
    ensures bs[2..10] == DataBits(d) && bs[10] == Parity(d)
  {
    [true, false] + DataBits(d) + [Parity(d), true, true]
  }

  /** Bit i of the data part is bit i of `d`, as `data & mask` tests it with `mask == 1 << i`. */
  lemma DataBitsAt(d: Byte, i: nat)
    requires i < 8
    ensures DataBits(d)[i] == ((d / Pow2(i)) % 2 == 1)
  {
    BitsAt(d, 8, i);
  }

  /** The data bits read back LSB first give `d`. */
  lemma DataRoundTrip(d: Byte)
    ensures LsbValue(DataBits(d)) == d
  {
    BitsValue(d, 8);
    assert Pow2(8) == 256;
    DivUnique(d, 256, 0, d);
  }

  /** Even parity: the data bits and the parity bit hold an even number of ones. */
  lemma EvenParity(d: Byte)
    ensures Ones(FrameBits(d)[2..11]) % 2 == 0
  {
    var bs := FrameBits(d);
    assert bs[2..11] == DataBits(d) + [Parity(d)];
    OnesAppend(DataBits(d), [Parity(d)]);
  }

  /** Bit-level round trip: the receiver's frame state machine, started at the start bit
      and given the transmitted start, data, parity and stop bits as its decisions,
      delivers `d`. */
  lemma DecodeTransmitted(d: Byte, recvBits: Byte)
    ensures Run(START_BIT, recvBits, FrameBits(d)[1..12]) == Finish(Some(d))
  {
    var bs := FrameBits(d);
    var ds := bs[1..12];
    DecodeFrame(recvBits, ds);
    assert forall k | 0 <= k < 8 :: ds[1..9][k] == bs[2..10][k];
    assert ds[1..9] == DataBits(d);
    DataRoundTrip(d);
  }

  /** End to end at the bit-decision level: bit samples from the start state whose
      decisions are the transmitted start, data, parity and stop bits leave the receiver
      idle and put `d` at the end of the ring, unless the ring was full. */
  lemma TransmittedEnqueued(d: Byte, s: RxState, q: Ring, ss: seq<Sample>)
    requires q.Valid() && s.recvStat == START_BIT
    requires Decisions(ss) == FrameBits(d)[1..12]
    ensures Timers(s, q, ss).0.recvStat == IDLE
    ensures q.Full() ==> Timers(s, q, ss).1.Items() == q.Items()
    ensures !q.Full() ==> Timers(s, q, ss).1.Items() == q.Items() + [d]
  {
    DecodeTransmitted(d, s.recvBits);
    TimersFollowRun(s, q, ss);
    PushItems(q, d);
  }

  /** Pin toggles of one `modulate` call for a tone of `cycles` cycles per bit: the
      do-while loop starts from `(uint8_t)(cycles * 2)` and runs until the counter reaches
      zero, so a start value of zero runs 256 times. The count is even, so the pin ends
      at the level it started from, and for 1..127 cycles it is two per cycle. */
  function ToggleCount(cycles: nat): (n: nat)
    ensures n % 2 == 0 && 2 <= n <= 256
    ensures 1 <= cycles <= 127 ==> n == 2 * cycles
  {
    var cnt := Wrap(cycles * 2);
    if cnt == 0 then 256 else cnt
  }

  /** The cycle count of the tone that carries `bit`. */
  function Cycles(c: Config, bit: bool): nat
  {
    if bit then c.highCycles else c.lowCycles
  }

  /** Pin toggles for modulating the bits of `bs` in order. */
  function BurstToggles(c: Config, bs: seq<bool>): nat
  {
    if bs == [] then 0 else ToggleCount(Cycles(c, bs[0])) + BurstToggles(c, bs[1..])
  }

  /** A run of bursts toggles the pin an even number of times, so the pin ends at the level
      it started from, and at least twice per burst. */
  lemma {:induction false} BurstTogglesEven(c: Config, bs: seq<bool>)
    ensures BurstToggles(c, bs) % 2 == 0 && BurstToggles(c, bs) >= 2 * |bs|
  {
    if bs != [] {
      BurstTogglesEven(c, bs[1..]);
      var n, m := ToggleCount(Cycles(c, bs[0])), BurstToggles(c, bs[1..]);
      assert n == 2 * (n / 2) && m == 2 * (m / 2);
      assert BurstToggles(c, bs) == 2 * (n / 2 + m / 2);
    }
  }

  lemma {:induction false} BurstTogglesAppend(c: Config, a: seq<bool>, b: seq<bool>)
    ensures BurstToggles(c, a + b) == BurstToggles(c, a) + BurstToggles(c, b)
  {
    if a != [] {
      assert (a + b)[0] == a[0] && (a + b)[1..] == a[1..] + b;
      BurstTogglesAppend(c, a[1..], b);
    } else {
      assert a + b == b;
    }
  }

  /** One more burst: the record of sent bits grows by `b` and the toggles by `b`'s share. */
  lemma EmitStep(c: Config, sent: seq<bool>, out: seq<bool>, b: bool)
    ensures (sent + out) + [b] == sent + (out + [b])
    ensures BurstToggles(c, out + [b]) == BurstToggles(c, out) + ToggleCount(Cycles(c, b))
  {
    BurstTogglesAppend(c, out, [b]);
    assert BurstToggles(c, [b]) == ToggleCount(Cycles(c, b)) + BurstToggles(c, []);
  }

  /** One more data bit: the emitted prefix and the count of ones grow by `bs[k]`. */
  lemma DataStep(head: seq<bool>, bs: seq<bool>, k: nat)
    requires k < |bs|
    ensures (head + bs[..k]) + [bs[k]] == head + bs[..k + 1]
    ensures Ones(bs[..k + 1]) == Ones(bs[..k]) + (if bs[k] then 1 else 0)
  {
    assert bs[..k + 1] == bs[..k] + [bs[k]];
    OnesAppend(bs[..k], [bs[k]]);
  }

  /** The bursts `write` emits, in order, are the frame. */
  lemma FrameAssembled(d: Byte, head: seq<bool>, parity: bool)
    requires head == [true, false] + DataBits(d) && parity == Parity(d)
    ensures ((head + [parity]) + [true]) + [true] == FrameBits(d)
  {
  }
}
