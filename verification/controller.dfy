/**
 Shared vocabulary of the SSD1331 driver: machine integer ranges, the display
 rotation, the controller command set, and an abstract SPI/DC bus.

 The bus is modelled as an ordered log of the events that completed, together
 with a failure oracle: the k-th attempted bus operation (counting from the
 creation of the bus) fails when k is a key of `faults`. A failed operation is
 not logged, and every fallible sequence of the driver stops at its first
 failure, so a failed sequence leaves a prefix of its events in the log.
 */
module Controller {

  newtype u8 = x: int | 0 <= x < 0x100
  newtype u32 = x: int | 0 <= x < 0x1_0000_0000
  newtype i32 = x: int | -0x8000_0000 <= x < 0x8000_0000

  /** Native panel geometry (columns, rows) */
  const DisplayWidth: u8 := 96
  const DisplayHeight: u8 := 64

  datatype Rotation = Rotate0 | Rotate90 | Rotate180 | Rotate270
  {
    /** The rotations that swap the logical axes */
    predicate IsQuarterTurn() {
      this == Rotate90 || this == Rotate270
    }
  }

  /** Only the variants the driver core uses; the full enumerations live in the command module */
  datatype ColorMode = CM65k
  datatype AddressIncrementMode = Horizontal | Vertical
  datatype VcomhLevel = V071

  /** Controller commands as opaque values; their byte encoding is not modelled */
  datatype Command =
    | DisplayOn(on: bool)
    | DisplayClockDiv(divide: u8, oscillator: u8)
    | Multiplex(ratio: u8)
    | DisplayOffset(offset: u8)
    | StartLine(line: u8)
    | RemapAndColorDepth(remap: bool, flip: bool, mode: ColorMode, increment: AddressIncrementMode)
    | Contrast(red: u8, green: u8, blue: u8)
    | PreChargePeriod(phase1: u8, phase2: u8)
    | VcomhDeselect(level: VcomhLevel)
    | AllOn(lit: bool)
    | Invert(inverted: bool)
    | ColumnAddress(startColumn: u8, endColumn: u8)
    | RowAddress(startRow: u8, endRow: u8)

  /** One observable bus operation: a command send, raising DC to "data", or a data write */
  datatype Event = Cmd(command: Command) | DcHigh | Write(bytes: seq<u8>)

  /** The two error kinds of the driver; the HAL's own error payloads are dropped */
  datatype Error = Comm | Pin

  datatype Outcome<+E> = Pass | Fail(error: E)

  datatype Bus = Bus(log: seq<Event>, attempts: nat, faults: map<nat, Error>)

  /** Error reported for a failed event. A command send can fail on the DC pin or on the
      SPI write, so the oracle decides; the other two events each touch only one device. */
  function Reported(e: Event, hal: Error): (err: Error) {
    match e
    case Cmd(_) => hal
    case DcHigh => Pin
    case Write(_) => Comm
  }

  /** Attempt one bus operation */
  function Attempt(b: Bus, e: Event): (r: (Bus, Outcome<Error>)) {
    if b.attempts in b.faults then
      (b.(attempts := b.attempts + 1), Fail(Reported(e, b.faults[b.attempts])))
    else
      (b.(log := b.log + [e], attempts := b.attempts + 1), Pass)
  }

  /** No attempt numbered from `from` up to (excluding) `from + n` fails */
  predicate Clean(faults: map<nat, Error>, from: nat, n: nat) {
    forall k :: from <= k < from + n ==> k !in faults
  }

  /** Offset (relative to `from`) of the first failing attempt among the next `n`, or `n` */
  function FirstFault(faults: map<nat, Error>, from: nat, n: nat): (k: nat)
    ensures k <= n
    ensures Clean(faults, from, k)
    ensures k < n ==> from + k in faults
    decreases n
  {
    if n == 0 || from in faults then 0
    else 1 + FirstFault(faults, from + 1, n - 1)
  }

  /** Attempt the events in order, stopping at the first failure (Rust's `?` chain) */
  function Run(b: Bus, es: seq<Event>): (r: (Bus, Outcome<Error>))
    ensures r.0.faults == b.faults
    ensures var k := FirstFault(b.faults, b.attempts, |es|);
      && r.0.log == b.log + es[..k]
      && (r.1.Pass? <==> k == |es|)
      && r.0.attempts == b.attempts + (if k < |es| then k + 1 else k)
      && (k < |es| ==> r.1 == Fail(Reported(es[k], b.faults[b.attempts + k])))
    decreases |es|
  {
    if |es| == 0 then (b, Pass)
    else
      var step := Attempt(b, es[0]);
      if step.1.Fail? then
        assert FirstFault(b.faults, b.attempts, |es|) == 0;
        step
      else
        var k := FirstFault(b.faults, b.attempts + 1, |es| - 1);
        assert FirstFault(b.faults, b.attempts, |es|) == k + 1;
        PrefixStep(b.log, es, k);
        Run(step.0, es[1..])
  }

  /** Logging the first event and then a prefix of the rest logs a prefix of the whole */
  lemma PrefixStep(log: seq<Event>, es: seq<Event>, k: nat)
    requires k < |es|
    ensures (log + [es[0]]) + es[1..][..k] == log + es[..k + 1]
  {
    assert es[..k + 1] == [es[0]] + es[1..][..k];
  }

  /** `after` is `before` followed by all of `es` */
  predicate Appended(before: seq<Event>, after: seq<Event>, es: seq<Event>) {
    after == before + es
  }

  /** `after` is `before` followed by a proper prefix of `es` */
  predicate AppendedStrictPrefix(before: seq<Event>, after: seq<Event>, es: seq<Event>) {
    && |before| <= |after| < |before| + |es|
    && after == before + es[..|after| - |before|]
  }

  /** A run succeeds exactly when none of its attempts is a fault; it then logs all its
      events, and otherwise logs a proper prefix of them and nothing else */
  lemma RunOutcome(b: Bus, es: seq<Event>)
    ensures Run(b, es).1.Pass? <==> Clean(b.faults, b.attempts, |es|)
    ensures Run(b, es).1.Pass? ==> Appended(b.log, Run(b, es).0.log, es)
    ensures Run(b, es).1.Fail? ==> AppendedStrictPrefix(b.log, Run(b, es).0.log, es)
  {
  }

  /** Running two event lists back to back is running their concatenation */
  lemma {:induction false} RunAppend(b: Bus, xs: seq<Event>, ys: seq<Event>)
    ensures Run(b, xs + ys) ==
      (var (b1, o) := Run(b, xs); if o.Fail? then (b1, o) else Run(b1, ys))
    decreases |xs|
  {
    if |xs| == 0 {
      assert xs + ys == ys;
    } else {
      var (b1, o) := Attempt(b, xs[0]);
      assert (xs + ys)[0] == xs[0];
      assert (xs + ys)[1..] == xs[1..] + ys;
      if o.Pass? {
        RunAppend(b1, xs[1..], ys);
      }
    }
  }

  /** The remap/colour-depth command that realises each rotation on the controller */
  function RemapFor(rot: Rotation): (c: Command)
    ensures c.RemapAndColorDepth? && c.mode == CM65k
    ensures c.increment == Vertical <==> rot.IsQuarterTurn()
    ensures c.remap <==> rot == Rotate90 || rot == Rotate180
    ensures c.flip <==> rot == Rotate180 || rot == Rotate270
  {
    match rot
    case Rotate0 => RemapAndColorDepth(false, false, CM65k, Horizontal)
    case Rotate90 => RemapAndColorDepth(true, false, CM65k, Vertical)
    case Rotate180 => RemapAndColorDepth(true, true, CM65k, Horizontal)
    case Rotate270 => RemapAndColorDepth(false, true, CM65k, Vertical)
  }

  /** Each rotation has its own remap command, so the controller can tell them apart */
  lemma RemapInjective(a: Rotation, b: Rotation)
    ensures RemapFor(a) == RemapFor(b) <==> a == b
  {
  }

  /** Logical (width, height) seen by callers under a rotation */
  function LogicalSize(rot: Rotation): (r: (u8, u8))
    ensures r.0 as int * r.1 as int == DisplayWidth as int * DisplayHeight as int
    ensures rot.IsQuarterTurn() <==> r == (DisplayHeight, DisplayWidth)
    ensures !rot.IsQuarterTurn() <==> r == (DisplayWidth, DisplayHeight)
  {
    match rot
    case Rotate0 | Rotate180 => (DisplayWidth, DisplayHeight)
    case Rotate90 | Rotate270 => (DisplayHeight, DisplayWidth)
  }

  /** Commands `init` sends before applying the rotation */
  const InitHead: seq<Command> := [
    DisplayOn(false),
    DisplayClockDiv(0x8, 0x0),
    Multiplex(64 - 1),
    DisplayOffset(0),
    StartLine(0)
  ]

  /** Commands `init` sends after applying the rotation */
  const InitTail: seq<Command> := [
    Contrast(0x91, 0x50, 0x7D),
    PreChargePeriod(0x1, 0xF),
    VcomhDeselect(V071),
    AllOn(false),
    Invert(false),
    DisplayOn(true)
  ]

  function AsEvents(cs: seq<Command>): (es: seq<Event>)
    ensures |es| == |cs|
    ensures forall i :: 0 <= i < |cs| ==> es[i] == Cmd(cs[i])
  {
    seq(|cs|, i requires 0 <= i < |cs| => Cmd(cs[i]))
  }

  /** The complete controller bring-up, written out as the reference sequence */
  function BringUp(rot: Rotation): (es: seq<Event>) {
    [ Cmd(DisplayOn(false)),
      Cmd(DisplayClockDiv(8, 0)),
      Cmd(Multiplex(63)),
      Cmd(DisplayOffset(0)),
      Cmd(StartLine(0)),
      Cmd(RemapFor(rot)),
      Cmd(Contrast(0x91, 0x50, 0x7D)),
      Cmd(PreChargePeriod(1, 0xF)),
      Cmd(VcomhDeselect(V071)),
      Cmd(AllOn(false)),
      Cmd(Invert(false)),
      Cmd(DisplayOn(true)) ]
  }

  /** The draw-window commands for the box from `start` to `end` (exclusive) */
  function DrawWindow(start: (u8, u8), end: (u8, u8)): (es: seq<Event>)
    requires end.0 >= 1 && end.1 >= 1
  {
    [Cmd(ColumnAddress(start.0, end.0 - 1)), Cmd(RowAddress(start.1, end.1 - 1))]
  }

  /** `init` composed from its parts is the reference bring-up */
  lemma BringUpSplit(rot: Rotation)
    ensures BringUp(rot) == AsEvents(InitHead) + [Cmd(RemapFor(rot))] + AsEvents(InitTail)
  {
  }
}
