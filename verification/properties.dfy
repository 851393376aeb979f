/**
 The unbuffered property container: it keeps only the rotation and the bus,
 sends the same bring-up and draw-window commands as the buffered driver, and
 streams caller-supplied pixel data. Every error collapses to one unit failure.
 */
module Props {
  import opened Controller

  datatype Properties = Properties(rotation: Rotation, bus: Bus)

  /** Forget which device failed */
  function Collapse(o: Outcome<Error>): (r: Outcome<()>)
    ensures r.Pass? <==> o.Pass?
  {
    if o.Pass? then Pass else Fail(())
  }

  function New(bus: Bus, rotation: Rotation): (p: Properties)
    ensures p.rotation == rotation && p.bus == bus
  {
    Properties(rotation, bus)
  }

  /** The stored rotation, which is the one `Dimensions` reports the size for */
  function GetRotation(p: Properties): (r: Rotation)
    ensures LogicalSize(r) == Dimensions(p)
    ensures r.IsQuarterTurn() <==> Dimensions(p) == (64, 96)
  {
    p.rotation
  }

  /** Logical dimensions under the current rotation */
  function Dimensions(p: Properties): (r: (u8, u8))
    ensures r.0 as int * r.1 as int == DisplayWidth as int * DisplayHeight as int
    ensures p.rotation.IsQuarterTurn() <==> r == (64, 96)
    ensures !p.rotation.IsQuarterTurn() <==> r == (96, 64)
  {
    LogicalSize(p.rotation)
  }

  /** Store the rotation, then send its remap command */
  function SetRotation(p: Properties, rot: Rotation): (r: (Properties, Outcome<()>))
    ensures r.0.rotation == rot
    ensures r.0.bus == Run(p.bus, [Cmd(RemapFor(rot))]).0
    ensures r.1 == Collapse(Run(p.bus, [Cmd(RemapFor(rot))]).1)
  {
    var p1 := p.(rotation := rot);
    var (b, o) := Attempt(p1.bus, Cmd(RemapFor(rot)));
    (p1.(bus := b), Collapse(o))
  }

  /** The bring-up sequence, with the current rotation applied in sixth place */
  function InitColumnMode(p: Properties): (r: (Properties, Outcome<()>))
    ensures r.0.rotation == p.rotation
  {
    var rotation := p.rotation;
    var (b1, o1) := Run(p.bus, AsEvents(InitHead));
    if o1.Fail? then (p.(bus := b1), Collapse(o1))
    else
      var (p2, o2) := SetRotation(p.(bus := b1), rotation);
      if o2.Fail? then (p2, o2)
      else
        var (b3, o3) := Run(p2.bus, AsEvents(InitTail));
        (p2.(bus := b3), Collapse(o3))
  }

  /** `InitColumnMode` puts exactly the reference bring-up on the bus, up to its first failure */
  lemma {:induction false} InitColumnModeReplaysBringUp(p: Properties)
    ensures InitColumnMode(p).0.bus == Run(p.bus, BringUp(p.rotation)).0
    ensures InitColumnMode(p).1 == Collapse(Run(p.bus, BringUp(p.rotation)).1)
  {
    var head := AsEvents(InitHead);
    var remap := [Cmd(RemapFor(p.rotation))];
    var tail := AsEvents(InitTail);
    BringUpSplit(p.rotation);
    assert BringUp(p.rotation) == head + (remap + tail);
    RunAppend(p.bus, head, remap + tail);
    var (b1, o1) := Run(p.bus, head);
    if o1.Pass? {
      RunAppend(b1, remap, tail);
    }
  }

  /** `InitColumnMode` succeeds exactly when its twelve sends do; a failure leaves a
      proper prefix of the bring-up in the log */
  lemma InitColumnModeProtocol(p: Properties)
    ensures InitColumnMode(p).1.Pass? <==> Clean(p.bus.faults, p.bus.attempts, 12)
    ensures InitColumnMode(p).1.Pass? ==> Appended(p.bus.log, InitColumnMode(p).0.bus.log, BringUp(p.rotation))
    ensures InitColumnMode(p).1.Fail? ==> AppendedStrictPrefix(p.bus.log, InitColumnMode(p).0.bus.log, BringUp(p.rotation))
  {
    InitColumnModeReplaysBringUp(p);
    RunOutcome(p.bus, BringUp(p.rotation));
  }

  /** Program the draw window to the box from `start` to `end` (exclusive) */
  function SetDrawArea(p: Properties, start: (u8, u8), end: (u8, u8)): (r: (Properties, Outcome<()>))
    requires end.0 >= 1 && end.1 >= 1
    ensures r.0.rotation == p.rotation
    ensures r.0.bus == Run(p.bus, DrawWindow(start, end)).0
    ensures r.1 == Collapse(Run(p.bus, DrawWindow(start, end)).1)
  {
    var (b1, o1) := Attempt(p.bus, Cmd(ColumnAddress(start.0, end.0 - 1)));
    if o1.Fail? then (p.(bus := b1), Collapse(o1))
    else
      var (b2, o2) := Attempt(b1, Cmd(RowAddress(start.1, end.1 - 1)));
      (p.(bus := b2), Collapse(o2))
  }

  /** Stream raw pixel data: raise DC, then write `buffer` as it is */
  function Draw(p: Properties, buffer: seq<u8>): (r: (Properties, Outcome<()>))
    ensures r.0.rotation == p.rotation
    ensures r.0.bus == Run(p.bus, [DcHigh, Write(buffer)]).0
    ensures r.1 == Collapse(Run(p.bus, [DcHigh, Write(buffer)]).1)
  {
    var (b1, o1) := Attempt(p.bus, DcHigh);
    if o1.Fail? then (p.(bus := b1), Collapse(o1))
    else
      var (b2, o2) := Attempt(b1, Write(buffer));
      (p.(bus := b2), Collapse(o2))
  }

  /** `Draw` sends no command: on success it logs DC-high and one write of exactly the
      caller's bytes, and on failure at most the DC-high */
  lemma DrawProtocol(p: Properties, buffer: seq<u8>)
    ensures Draw(p, buffer).1.Pass? <==> Clean(p.bus.faults, p.bus.attempts, 2)
    ensures Draw(p, buffer).1.Pass? ==> Appended(p.bus.log, Draw(p, buffer).0.bus.log, [DcHigh, Write(buffer)])
    ensures Draw(p, buffer).1.Fail? ==>
      Draw(p, buffer).0.bus.log == p.bus.log || Draw(p, buffer).0.bus.log == p.bus.log + [DcHigh]
  {
  }

  /** `rotation()` returns the rotation stored last, by `new` or by `set_rotation` whether or
      not its send succeeded; the other operations keep it */
  lemma RotationIsLastStored(p: Properties, bus: Bus, rot: Rotation, buffer: seq<u8>)
    ensures GetRotation(New(bus, rot)) == rot
    ensures GetRotation(SetRotation(p, rot).0) == rot
    ensures GetRotation(InitColumnMode(p).0) == GetRotation(p)
    ensures GetRotation(Draw(p, buffer).0) == GetRotation(p)
  {
  }
}
