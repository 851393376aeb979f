/**
 The buffered driver and the property container share their control-plane
 code: started from the same bus and rotation they put the same commands on it.
 */
module Agreement {
  import opened Controller
  import Display
  import Props

  /** The same bring-up traffic, and the same success, from both components */
  lemma SameBringUp(bus: Bus, buffer: Display.Frame, rot: Rotation)
    ensures Display.Init(Display.Ssd1331(buffer, rot, bus)).0.bus
         == Props.InitColumnMode(Props.Properties(rot, bus)).0.bus
    ensures Display.Init(Display.Ssd1331(buffer, rot, bus)).1.Pass?
        <==> Props.InitColumnMode(Props.Properties(rot, bus)).1.Pass?
  {
  }

  /** `Flush` is the property container's full-panel window followed by its raw `Draw`
      of the whole framebuffer */
  lemma FlushIsWindowThenDraw(d: Display.Ssd1331)
    ensures var (p1, o1) := Props.SetDrawArea(Props.Properties(d.rotation, d.bus), (0, 0), (96, 64));
      var final := if o1.Fail? then (p1, o1) else Props.Draw(p1, d.buffer);
      && Display.Flush(d).0.bus == final.0.bus
      && (Display.Flush(d).1.Pass? <==> final.1.Pass?)
  {
  }
}
