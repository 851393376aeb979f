/**
 The buffered SSD1331 driver: a 96x64 RGB565 framebuffer, the current rotation,
 and the bus it talks to. Pixel writes only touch the buffer; `Flush` streams
 the whole buffer to the controller after programming the full-screen window.
 */
module Display {
  import opened Controller

  /** 96px x 64px screen with 16 bits (2 bytes) per pixel */
  const BufSize: nat := 12288

  type Frame = s: seq<u8> | |s| == BufSize witness seq(12288, _ => 0)

  datatype Ssd1331 = Ssd1331(buffer: Frame, rotation: Rotation, bus: Bus)

  /** An all-zero framebuffer */
  function Blank(): (f: Frame)
    ensures forall i :: 0 <= i < |f| ==> f[i] == 0
  {
    seq(BufSize, _ => 0)
  }

  /** A new driver: zeroed buffer, the given rotation, no bus traffic */
  function New(bus: Bus, rotation: Rotation): (d: Ssd1331)
    ensures d.rotation == rotation && d.bus == bus
    ensures |d.buffer| == 2 * DisplayWidth as int * DisplayHeight as int
    ensures forall i :: 0 <= i < |d.buffer| ==> d.buffer[i] == 0
  {
    Ssd1331(Blank(), rotation, bus)
  }

  /** Zero the whole buffer; no bus traffic, rotation kept */
  function Clear(d: Ssd1331): (r: Ssd1331)
    ensures r.rotation == d.rotation && r.bus == d.bus
    ensures forall i :: 0 <= i < |r.buffer| ==> r.buffer[i] == 0
  {
    d.(buffer := Blank())
  }

  /** Clearing an existing driver gives the same state as creating a fresh one */
  lemma ClearIsNew(d: Ssd1331)
    ensures Clear(d) == New(d.bus, d.rotation)
    ensures Clear(Clear(d)) == Clear(d)
  {
  }

  /** Logical dimensions under the current rotation */
  function Dimensions(d: Ssd1331): (r: (u8, u8))
    ensures r.0 as int * r.1 as int == DisplayWidth as int * DisplayHeight as int
    ensures d.rotation.IsQuarterTurn() <==> r == (64, 96)
    ensures !d.rotation.IsQuarterTurn() <==> r == (96, 64)
  {
    LogicalSize(d.rotation)
  }

  /** The current rotation, which is the one `Dimensions` reports the size for */
  function GetRotation(d: Ssd1331): (r: Rotation)
    ensures LogicalSize(r) == Dimensions(d)
    ensures r.IsQuarterTurn() <==> Dimensions(d) == (64, 96)
  {
    d.rotation
  }

  /** High byte of a 16-bit value, as the driver extracts it with a mask and shift */
  function High(v: bv16): (b: u8) {
    ((v & 0xFF00) >> 8) as int as u8
  }

  /** Low byte of a 16-bit value, as the driver extracts it with a mask */
  function Low(v: bv16): (b: u8) {
    (v & 0xFF) as int as u8
  }

  /** The two bytes written for a pixel are its big-endian encoding */
  lemma SplitJoin(v: bv16)
    ensures High(v) as int * 256 + Low(v) as int == v as int
  {
  }

  /** Row stride (in pixels) of the buffer index computation */
  function Stride(rot: Rotation): (n: nat) {
    if rot.IsQuarterTurn() then DisplayHeight as nat else DisplayWidth as nat
  }

  /** When `SetPixel` writes, in plain terms. Rotate0/180 accepts exactly the
      on-screen pixels. Rotate90/270 bounds only y by 96 and otherwise accepts any
      pixel whose linear index is inside the buffer, so x >= 64 is not refused. */
  predicate Accepts(rot: Rotation, x: u32, y: u32) {
    if rot.IsQuarterTurn() then y < 96 && 64 * y as int + x as int < 6144
    else x < 96 && y < 64
  }

  /** Byte offset a pixel lands at when it is accepted */
  function Offset(rot: Rotation, x: u32, y: u32): (i: nat) {
    2 * (Stride(rot) * y as nat + x as nat)
  }

  /** The coordinate bounds check of `set_pixel`: x for Rotate0/180, y for Rotate90/270 */
  predicate Refused(rot: Rotation, x: u32, y: u32) {
    match rot
    case Rotate0 | Rotate180 => x >= DisplayWidth as u32
    case Rotate90 | Rotate270 => y >= DisplayWidth as u32
  }

  /** The byte index `set_pixel` computes before its final bounds check */
  function Index(rot: Rotation, x: u32, y: u32): (i: nat) {
    match rot
    case Rotate0 | Rotate180 => ((y as nat) * DisplayWidth as nat + (x as nat)) * 2
    case Rotate90 | Rotate270 => ((y as nat) * DisplayHeight as nat + (x as nat)) * 2
  }

  /** The source's two checks together accept exactly the pixels `Accepts` describes */
  lemma ChecksMatchAccepts(rot: Rotation, x: u32, y: u32)
    ensures Index(rot, x, y) == Offset(rot, x, y)
    ensures !Refused(rot, x, y) && Index(rot, x, y) < BufSize - 1 <==> Accepts(rot, x, y)
  {
  }

  /** Store a 16-bit pixel value, high byte first. Pixels the rotation-dependent
      bounds checks refuse, or whose index reaches the last byte, are ignored. */
  function SetPixel(d: Ssd1331, x: u32, y: u32, value: bv16): (r: Ssd1331)
    ensures r.rotation == d.rotation && r.bus == d.bus
    ensures !Accepts(d.rotation, x, y) ==> r == d
    ensures Accepts(d.rotation, x, y) ==>
      var i := Offset(d.rotation, x, y);
      && i + 1 < BufSize
      && r.buffer[i] == High(value)
      && r.buffer[i + 1] == Low(value)
      && forall j :: 0 <= j < BufSize && j != i && j != i + 1 ==> r.buffer[j] == d.buffer[j]
  {
    ChecksMatchAccepts(d.rotation, x, y);
    var idx := Index(d.rotation, x, y);
    if Refused(d.rotation, x, y) || idx >= |d.buffer| - 1 then d
    else d.(buffer := d.buffer[idx := High(value)][idx + 1 := Low(value)])
  }

  /** The 16-bit value stored at the pixel with byte offset `i` */
  function PixelAt(f: Frame, i: nat): (v: int)
    requires i + 1 < |f|
  {
    f[i] as int * 256 + f[i + 1] as int
  }

  /** A written pixel reads back as the value written */
  lemma SetPixelReadBack(d: Ssd1331, x: u32, y: u32, value: bv16)
    requires Accepts(d.rotation, x, y)
    ensures Offset(d.rotation, x, y) + 1 < BufSize
    ensures PixelAt(SetPixel(d, x, y, value).buffer, Offset(d.rotation, x, y)) == value as int
  {
  }

  /** Rotate0/180: the bounds are exactly the logical dimensions. Rotate90/270:
      every on-screen pixel is written, but so are some off-screen ones. */
  lemma AcceptsVersusDimensions(d: Ssd1331, x: u32, y: u32)
    ensures !d.rotation.IsQuarterTurn() ==>
      (Accepts(d.rotation, x, y) <==> x < Dimensions(d).0 as u32 && y < Dimensions(d).1 as u32)
    ensures x < Dimensions(d).0 as u32 && y < Dimensions(d).1 as u32 ==> Accepts(d.rotation, x, y)
  {
  }

  /** In a quarter-turn rotation, x = 64 on row 0 is not refused: it lands on the
      first pixel of the next buffer row, exactly where (0, 1) goes. Row 96 is
      always refused, and on the last row 95 only x < 64 fits in the buffer. */
  lemma QuarterTurnOverflow(d: Ssd1331, value: bv16)
    requires d.rotation.IsQuarterTurn()
    ensures Accepts(d.rotation, 64, 0) && 64 >= Dimensions(d).0
    ensures SetPixel(d, 64, 0, value) == SetPixel(d, 0, 1, value)
    ensures forall x: u32 :: !Accepts(d.rotation, x, 96)
    ensures Accepts(d.rotation, 63, 95) && !Accepts(d.rotation, 64, 95)
  {
  }

  /** Distinct on-screen pixels occupy disjoint byte pairs */
  lemma OffsetsDisjoint(rot: Rotation, x1: u32, y1: u32, x2: u32, y2: u32)
    requires x1 < LogicalSize(rot).0 as u32 && y1 < LogicalSize(rot).1 as u32
    requires x2 < LogicalSize(rot).0 as u32 && y2 < LogicalSize(rot).1 as u32
    requires (x1, y1) != (x2, y2)
    ensures Offset(rot, x1, y1) != Offset(rot, x2, y2)
    ensures Offset(rot, x1, y1) + 1 != Offset(rot, x2, y2)
    ensures Offset(rot, x2, y2) + 1 != Offset(rot, x1, y1)
  {
  }

  /** Writes to two different on-screen pixels commute */
  lemma SetPixelCommutes(d: Ssd1331, x1: u32, y1: u32, v1: bv16, x2: u32, y2: u32, v2: bv16)
    requires x1 < Dimensions(d).0 as u32 && y1 < Dimensions(d).1 as u32
    requires x2 < Dimensions(d).0 as u32 && y2 < Dimensions(d).1 as u32
    requires (x1, y1) != (x2, y2)
    ensures SetPixel(SetPixel(d, x1, y1, v1), x2, y2, v2)
         == SetPixel(SetPixel(d, x2, y2, v2), x1, y1, v1)
  {
    OffsetsDisjoint(d.rotation, x1, y1, x2, y2);
    AcceptsVersusDimensions(d, x1, y1);
    AcceptsVersusDimensions(d, x2, y2);
    var a := SetPixel(SetPixel(d, x1, y1, v1), x2, y2, v2);
    var b := SetPixel(SetPixel(d, x2, y2, v2), x1, y1, v1);
    forall j | 0 <= j < BufSize
      ensures a.buffer[j] == b.buffer[j]
    {
    }
    assert a.buffer == b.buffer;
  }

  /** Program the controller's draw window to the box from `start` to `end` (exclusive) */
  function SetDrawArea(d: Ssd1331, start: (u8, u8), end: (u8, u8)): (r: (Ssd1331, Outcome<Error>))
    requires end.0 >= 1 && end.1 >= 1
    ensures r.0.buffer == d.buffer && r.0.rotation == d.rotation
    ensures r.0.bus == Run(d.bus, DrawWindow(start, end)).0
    ensures r.1 == Run(d.bus, DrawWindow(start, end)).1
  {
    var (b1, o1) := Attempt(d.bus, Cmd(ColumnAddress(start.0, end.0 - 1)));
    if o1.Fail? then (d.(bus := b1), o1)
    else
      var (b2, o2) := Attempt(b1, Cmd(RowAddress(start.1, end.1 - 1)));
      (d.(bus := b2), o2)
  }

  /** What `Flush` puts on the bus when nothing fails */
  function FrameUpload(f: Frame): (es: seq<Event>) {
    [ Cmd(ColumnAddress(0, 95)),
      Cmd(RowAddress(0, 63)),
      DcHigh,
      Write(f) ]
  }

  /** Send the whole framebuffer, after resetting the draw window to the full panel */
  function Flush(d: Ssd1331): (r: (Ssd1331, Outcome<Error>))
    ensures r.0.buffer == d.buffer && r.0.rotation == d.rotation
    ensures r.0.bus == Run(d.bus, FrameUpload(d.buffer)).0
    ensures r.1 == Run(d.bus, FrameUpload(d.buffer)).1
  {
    RunAppend(d.bus, DrawWindow((0, 0), (96, 64)), [DcHigh, Write(d.buffer)]);
    assert FrameUpload(d.buffer) == DrawWindow((0, 0), (96, 64)) + [DcHigh, Write(d.buffer)];
    var (d1, o1) := SetDrawArea(d, (0, 0), (DisplayWidth, DisplayHeight));
    if o1.Fail? then (d1, o1)
    else
      RunAppend(d1.bus, [DcHigh], [Write(d.buffer)]);
      var (b2, o2) := Attempt(d1.bus, DcHigh);
      if o2.Fail? then (d1.(bus := b2), o2)
      else
        var (b3, o3) := Attempt(b2, Write(d1.buffer));
        (d1.(bus := b3), o3)
  }

  /** Set the rotation, then send the matching remap command. The rotation is
      stored before the send, so it changes even when the send fails. */
  function SetRotation(d: Ssd1331, rot: Rotation): (r: (Ssd1331, Outcome<Error>))
    ensures r.0.rotation == rot && r.0.buffer == d.buffer
    ensures r.0.bus == Run(d.bus, [Cmd(RemapFor(rot))]).0
    ensures r.1 == Run(d.bus, [Cmd(RemapFor(rot))]).1
  {
    var d1 := d.(rotation := rot);
    var (b, o) := Attempt(d1.bus, Cmd(RemapFor(rot)));
    (d1.(bus := b), o)
  }

  /** Bring the controller up: five fixed commands, the current rotation's remap,
      then six more fixed commands, stopping at the first failure */
  function Init(d: Ssd1331): (r: (Ssd1331, Outcome<Error>))
    ensures r.0.buffer == d.buffer && r.0.rotation == d.rotation
  {
    var rotation := d.rotation;
    var (b1, o1) := Run(d.bus, AsEvents(InitHead));
    if o1.Fail? then (d.(bus := b1), o1)
    else
      var (d2, o2) := SetRotation(d.(bus := b1), rotation);
      if o2.Fail? then (d2, o2)
      else
        var (b3, o3) := Run(d2.bus, AsEvents(InitTail));
        (d2.(bus := b3), o3)
  }

  /** `Init` puts exactly the reference bring-up sequence on the bus, up to its first failure */
  lemma {:induction false} InitReplaysBringUp(d: Ssd1331)
    ensures Init(d).0.bus == Run(d.bus, BringUp(d.rotation)).0
    ensures Init(d).1 == Run(d.bus, BringUp(d.rotation)).1
  {
    var head := AsEvents(InitHead);
    var remap := [Cmd(RemapFor(d.rotation))];
    var tail := AsEvents(InitTail);
    BringUpSplit(d.rotation);
    assert BringUp(d.rotation) == head + (remap + tail);
    RunAppend(d.bus, head, remap + tail);
    var (b1, o1) := Run(d.bus, head);
    if o1.Pass? {
      RunAppend(b1, remap, tail);
    }
  }

  /** A pixel as the graphics adapter receives it: signed coordinates and a raw colour */
  datatype Pixel = Pixel(x: i32, y: i32, color: bv16)

  /** Pixel `p` is on the top-left side of the screen and `SetPixel` stores it over byte `j` */
  predicate Hits(rot: Rotation, p: Pixel, j: nat) {
    && p.x >= 0 && p.y >= 0
    && Accepts(rot, p.x as u32, p.y as u32)
    && (j == Offset(rot, p.x as u32, p.y as u32) || j == Offset(rot, p.x as u32, p.y as u32) + 1)
  }

  /** The byte of `p`'s colour that lands at byte `j` */
  function ByteOf(rot: Rotation, p: Pixel, j: nat): (b: u8)
    requires Hits(rot, p, j)
  {
    if j == Offset(rot, p.x as u32, p.y as u32) then High(p.color) else Low(p.color)
  }

  /** Value of byte `j` after drawing `ps` over a buffer whose byte `j` was `orig`:
      the colour byte of the last pixel that hits it, or `orig` when none does */
  function LastWrite(rot: Rotation, ps: seq<Pixel>, j: nat, orig: u8): (b: u8)
    decreases |ps|
  {
    if |ps| == 0 then orig
    else if Hits(rot, ps[|ps| - 1], j) then ByteOf(rot, ps[|ps| - 1], j)
    else LastWrite(rot, ps[..|ps| - 1], j, orig)
  }

  /** The graphics adapter: drop pixels with a negative coordinate and store the
      rest in order, so the last pixel written to a cell wins */
  method Draw(d: Ssd1331, pixels: seq<Pixel>) returns (r: Ssd1331)
    ensures r.rotation == d.rotation && r.bus == d.bus
    ensures forall j :: 0 <= j < BufSize ==>
      r.buffer[j] == LastWrite(d.rotation, pixels, j, d.buffer[j])
  {
    r := d;
    var i := 0;
    while i < |pixels|
      invariant 0 <= i <= |pixels|
      invariant r.rotation == d.rotation && r.bus == d.bus
      invariant forall j :: 0 <= j < BufSize ==>
        r.buffer[j] == LastWrite(d.rotation, pixels[..i], j, d.buffer[j])
    {
      var p := pixels[i];
      assert pixels[..i + 1][..i] == pixels[..i];
      if p.x >= 0 && p.y >= 0 {
        r := SetPixel(r, p.x as u32, p.y as u32, p.color);
      }
      i := i + 1;
    }
    assert pixels[..i] == pixels;
  }

  /** `Flush` succeeds exactly when its four bus operations do; it then logs the full-window
      commands followed by the whole buffer, and otherwise a proper prefix of that */
  lemma FlushProtocol(d: Ssd1331)
    ensures Flush(d).1.Pass? <==> Clean(d.bus.faults, d.bus.attempts, 4)
    ensures Flush(d).1.Pass? ==> Appended(d.bus.log, Flush(d).0.bus.log,
      [Cmd(ColumnAddress(0, 95)), Cmd(RowAddress(0, 63)), DcHigh, Write(d.buffer)])
    ensures Flush(d).1.Fail? ==> AppendedStrictPrefix(d.bus.log, Flush(d).0.bus.log, FrameUpload(d.buffer))
  {
  }

  /** Which error a failed `Flush` reports: a failure while raising DC is a pin error and a
      failure of the data write is a communication error */
  lemma FlushErrors(d: Ssd1331)
    ensures Clean(d.bus.faults, d.bus.attempts, 2) && d.bus.attempts + 2 in d.bus.faults ==>
      Flush(d).1 == Fail(Pin)
      && Flush(d).0.bus.log == d.bus.log + [Cmd(ColumnAddress(0, 95)), Cmd(RowAddress(0, 63))]
    ensures Clean(d.bus.faults, d.bus.attempts, 3) && d.bus.attempts + 3 in d.bus.faults ==>
      Flush(d).1 == Fail(Comm)
      && Flush(d).0.bus.log == d.bus.log + [Cmd(ColumnAddress(0, 95)), Cmd(RowAddress(0, 63)), DcHigh]
  {
  }

  /** `Init` succeeds exactly when its twelve sends do, logging the reference bring-up;
      a failure leaves a proper prefix of it. The rotation is unchanged either way. */
  lemma InitProtocol(d: Ssd1331)
    ensures Init(d).0.rotation == d.rotation
    ensures Init(d).1.Pass? <==> Clean(d.bus.faults, d.bus.attempts, 12)
    ensures Init(d).1.Pass? ==> Appended(d.bus.log, Init(d).0.bus.log, BringUp(d.rotation))
    ensures Init(d).1.Fail? ==> AppendedStrictPrefix(d.bus.log, Init(d).0.bus.log, BringUp(d.rotation))
  {
    InitReplaysBringUp(d);
    RunOutcome(d.bus, BringUp(d.rotation));
  }

  /** `SetRotation` stores the rotation whatever happens on the bus, and logs the one
      matching remap command exactly when its send succeeds */
  lemma SetRotationProtocol(d: Ssd1331, rot: Rotation)
    ensures GetRotation(SetRotation(d, rot).0) == rot
    ensures Dimensions(SetRotation(d, rot).0) == LogicalSize(rot)
    ensures SetRotation(d, rot).1.Pass? <==> d.bus.attempts !in d.bus.faults
    ensures SetRotation(d, rot).1.Pass? ==> Appended(d.bus.log, SetRotation(d, rot).0.bus.log, [Cmd(RemapFor(rot))])
    ensures SetRotation(d, rot).1.Fail? ==> SetRotation(d, rot).0.bus.log == d.bus.log
  {
  }

  /** Drawing one red pixel at the origin of a fresh display and flushing it over a
      fault-free bus sends the full-window commands and a frame that starts 0xF8, 0x00
      and is zero everywhere else */
  lemma RedPixelFrame(bus: Bus)
    requires Clean(bus.faults, bus.attempts, 4)
    ensures var d := SetPixel(New(bus, Rotate0), 0, 0, 0xF800);
      && Flush(d).1 == Pass
      && |Flush(d).0.bus.log| == |bus.log| + 4
      && Flush(d).0.bus.log[..|bus.log|] == bus.log
      && Flush(d).0.bus.log[|bus.log|..|bus.log| + 3]
         == [Cmd(ColumnAddress(0, 95)), Cmd(RowAddress(0, 63)), DcHigh]
      && var w := Flush(d).0.bus.log[|bus.log| + 3];
      && w.Write? && |w.bytes| == 12288
      && w.bytes[0] == 0xF8 && w.bytes[1] == 0x00
      && forall j :: 2 <= j < |w.bytes| ==> w.bytes[j] == 0
  {
  }
}
