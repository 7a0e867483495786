/**
 * One display entry (`Output`): the protocol objects that belong to one
 * monitor, its geometry cache (`OutputInfo`) and its renderer, together
 * with what each routed event does to that entry and the requests it
 * issues.
 */
module Display {
  import opened Types
  import opened Gpu
  import opened Wayland

  /** Geometry cache of one display; advisory metadata, filled in by events. */
  datatype OutputInfo = OutputInfo(name: string, width: i32, height: i32, scale: i32, id: u32)

  /** A display entry and the protocol objects it owns. */
  datatype Output = Output(
    wgpu: WgpuSurface,
    layerSurface: ObjectId,
    surface: ObjectId,
    output: ObjectId,
    xdgOutput: ObjectId,
    info: OutputInfo)

  /** An entry after an event, with the requests the event issued. */
  datatype Updated = Updated(entry: Output, effects: seq<Effect>)

  const ACQUIRE_FAILED: string := "failed to acquire next swapchain texture"

  /** `OutputInfo::new`: nothing is known about the display yet but its registry name. */
  function NewInfo(id: u32): (i: OutputInfo)
    ensures i.id == id
    ensures i.name == "" && i.width == 0 && i.height == 0
    ensures i.scale == 1
  {
    OutputInfo("", 0, 0, 1, id)
  }

  /** `a` and `b` hold the same protocol objects, the same renderer and the same id. */
  predicate SameObjects(a: Output, b: Output) {
    a.layerSurface == b.layerSurface && a.surface == b.surface && a.output == b.output
    && a.xdgOutput == b.xdgOutput && a.info.id == b.info.id
  }

  /**
   * `Output::new`: stores the objects and a fresh geometry cache, after
   * turning the layer surface into a full-extent overlay that ignores other
   * surfaces' exclusive zones (in the order `NewOutputOrder` states).
   */
  function NewOutput(output: ObjectId, xdgOutput: ObjectId, surface: ObjectId, layerSurface: ObjectId,
                     id: u32, wgpu: WgpuSurface): (u: Updated)
    ensures u.entry.output == output && u.entry.xdgOutput == xdgOutput
    ensures u.entry.surface == surface && u.entry.layerSurface == layerSurface
    ensures u.entry.wgpu == wgpu && u.entry.info == NewInfo(id)
    ensures |u.effects| == 3
  {
    var effects := [SetAnchor(layerSurface, ANCHOR_ALL), SetExclusiveZone(layerSurface, -1), SetLayer(layerSurface, Overlay)];
    Updated(Output(wgpu, layerSurface, surface, output, xdgOutput, NewInfo(id)), effects)
  }

  /** `Output::new` anchors the layer surface to every edge, then sets exclusive zone -1, then the overlay layer. */
  lemma NewOutputOrder(output: ObjectId, xdgOutput: ObjectId, surface: ObjectId, layerSurface: ObjectId,
                       id: u32, wgpu: WgpuSurface)
    ensures var u := NewOutput(output, xdgOutput, surface, layerSurface, id, wgpu);
            && Before(u.effects, SetAnchor(layerSurface, ANCHOR_ALL), SetExclusiveZone(layerSurface, -1))
            && Before(u.effects, SetExclusiveZone(layerSurface, -1), SetLayer(layerSurface, Overlay))
  {
    var effects := NewOutput(output, xdgOutput, surface, layerSurface, id, wgpu).effects;
    assert effects[0] == SetAnchor(layerSurface, ANCHOR_ALL) && effects[1] == SetExclusiveZone(layerSurface, -1);
    assert effects[2] == SetLayer(layerSurface, Overlay);
  }

  /** The calls between acquiring a texture and presenting it: one pass drawing every vertex once. */
  function RenderPass(o: Output): seq<Effect> {
    [BeginRenderPass(TRANSPARENT), SetPipeline, SetVertexBuffer(o.wgpu.vertexBuffer),
     Draw(o.wgpu.numVertices, 1), EndRenderPass, Submit]
  }

  /**
   * `Output::render` as the calls it makes: acquire a texture (a failure
   * panics), clear it to transparent, draw every vertex once, submit and
   * present. What the trace guarantees is `RenderPresentsOnce`,
   * `RenderOrder` and `RenderNeverAcks`.
   */
  function RenderTrace(o: Output, acquired: bool): (t: seq<Effect>)
    ensures |t| > 1 && t[0] == AcquireTexture(o.surface)
    ensures t[|t| - 1] == if acquired then Present(o.surface) else Panic(ACQUIRE_FAILED)
  {
    if acquired then [AcquireTexture(o.surface)] + RenderPass(o) + [Present(o.surface)]
    else [AcquireTexture(o.surface), Panic(ACQUIRE_FAILED)]
  }

  /** A render presents exactly one frame, none when the texture cannot be acquired. */
  lemma RenderPresentsOnce(o: Output, acquired: bool)
    ensures Count(RenderTrace(o, acquired), Present(o.surface)) == if acquired then 1 else 0
  {
    var present := Present(o.surface);
    if acquired {
      assert present !in RenderPass(o);
      CountAppend([AcquireTexture(o.surface)] + RenderPass(o), [present], present);
      CountAppend([AcquireTexture(o.surface)], RenderPass(o), present);
      CountSingle(AcquireTexture(o.surface), present);
      CountSingle(present, present);
    } else {
      assert present !in RenderTrace(o, acquired);
    }
  }

  /**
   * A presented frame was cleared to transparent, drawn from the entry's
   * vertices and submitted, in that order; a failed acquisition draws
   * nothing.
   */
  lemma RenderOrder(o: Output, acquired: bool)
    ensures var t := RenderTrace(o, acquired);
            && (acquired ==> Before(t, BeginRenderPass(TRANSPARENT), Draw(o.wgpu.numVertices, 1)))
            && (acquired ==> Before(t, Draw(o.wgpu.numVertices, 1), Submit))
            && (acquired ==> Before(t, Submit, Present(o.surface)))
            && (!acquired ==> Draw(o.wgpu.numVertices, 1) !in t)
  {
    var t := RenderTrace(o, acquired);
    if acquired {
      assert t[1] == BeginRenderPass(TRANSPARENT) && t[4] == Draw(o.wgpu.numVertices, 1);
      assert t[6] == Submit && t[7] == Present(o.surface);
    }
  }

  /** Rendering never reconfigures the swapchain or acknowledges a configure. */
  lemma RenderNeverAcks(o: Output, acquired: bool)
    ensures forall e :: e in RenderTrace(o, acquired) ==> !e.AckConfigure? && !e.ConfigureSwapchain?
  {
    if acquired {
      var pass := RenderPass(o);
      assert forall e :: e in pass ==> !e.AckConfigure? && !e.ConfigureSwapchain?;
    }
  }

  /** What an `zxdg_output_v1` event does to the entry it is routed to. */
  function XdgOutputUpdate(o: Output, ev: XdgOutputEvent): (r: Output)
    ensures SameObjects(r, o) && r.wgpu == o.wgpu && r.info.scale == o.info.scale
    ensures ev.Name? ==> r.info.name == ev.name && r.info.width == o.info.width && r.info.height == o.info.height
    ensures ev.LogicalSize? ==> r.info.width == ev.width && r.info.height == ev.height && r.info.name == o.info.name
    ensures !ev.Name? && !ev.LogicalSize? ==> r == o
  {
    match ev
    case Name(name) => o.(info := o.info.(name := name))
    case LogicalSize(width, height) => o.(info := o.info.(width := width, height := height))
    case _ => o
  }

  /**
   * What a `wl_output` event does to the entry it is routed to: a mode is
   * only forwarded as a size request (the 32-bit values reinterpreted as
   * unsigned), a scale is cached.
   */
  function WlOutputUpdate(o: Output, ev: WlOutputEvent): (u: Updated)
    ensures SameObjects(u.entry, o) && u.entry.wgpu == o.wgpu
    ensures ev.Mode? ==> u.entry == o && u.effects == [SetSize(o.layerSurface, AsU32(ev.width), AsU32(ev.height))]
    ensures ev.Scale? ==> u.effects == [] && u.entry.info.scale == ev.factor
    ensures ev.Scale? ==> u.entry.info.name == o.info.name && u.entry.info.width == o.info.width
                          && u.entry.info.height == o.info.height
    ensures !ev.Mode? && !ev.Scale? ==> u == Updated(o, [])
  {
    match ev
    case Mode(_, width, height, _) => Updated(o, [SetSize(o.layerSurface, AsU32(width), AsU32(height))])
    case Scale(factor) => Updated(o.(info := o.info.(scale := factor)), [])
    case _ => Updated(o, [])
  }

  /**
   * A `configure` on the entry's layer surface: size the swapchain, re-apply
   * it to the surface, acknowledge the serial, then render once. What the
   * calls guarantee is `ConfigureReconfiguresFirst`, `ConfigureAcksOnce`,
   * `ConfigurePresentsOnce` and `ConfigureAcksBeforePresent`.
   */
  function ConfigureUpdate(o: Output, serial: u32, width: u32, height: u32, acquired: bool): (u: Updated)
    ensures SameObjects(u.entry, o) && u.entry.info == o.info
    ensures u.entry.wgpu.config.width == width && u.entry.wgpu.config.height == height
    ensures SameExceptSize(u.entry.wgpu.config, o.wgpu.config)
    ensures u.entry.wgpu.vertexBuffer == o.wgpu.vertexBuffer && u.entry.wgpu.numVertices == o.wgpu.numVertices
    ensures |u.effects| > 2 && u.effects[0] == ConfigureSwapchain(o.surface, u.entry.wgpu.config)
    ensures u.effects[1] == AckConfigure(o.layerSurface, serial)
  {
    var resized := o.(wgpu := Resize(o.wgpu, width, height));
    var config := resized.wgpu.config.(width := width, height := height);
    var entry := resized.(wgpu := resized.wgpu.(config := config));
    Updated(entry, [ConfigureSwapchain(o.surface, config), AckConfigure(o.layerSurface, serial)] + RenderTrace(entry, acquired))
  }

  /** The configure path's calls: reconfigure, acknowledge, then one render. */
  lemma ConfigureEffects(o: Output, serial: u32, width: u32, height: u32, acquired: bool)
    ensures var u := ConfigureUpdate(o, serial, width, height, acquired);
            u.effects == [ConfigureSwapchain(o.surface, u.entry.wgpu.config), AckConfigure(o.layerSurface, serial)]
                         + RenderTrace(u.entry, acquired)
  {
  }

  /**
   * The configure path re-applies the swapchain, already sized to the
   * event, to the surface before it acknowledges the serial.
   */
  lemma ConfigureReconfiguresFirst(o: Output, serial: u32, width: u32, height: u32, acquired: bool)
    ensures var u := ConfigureUpdate(o, serial, width, height, acquired);
            var config := u.entry.wgpu.config;
            && config.width == width && config.height == height
            && u.effects[0] == ConfigureSwapchain(o.surface, config)
            && Before(u.effects, ConfigureSwapchain(o.surface, config), AckConfigure(o.layerSurface, serial))
  {
    var u := ConfigureUpdate(o, serial, width, height, acquired);
    assert u.effects[1] == AckConfigure(o.layerSurface, serial);
  }

  /** The configure path acknowledges its serial exactly once. */
  lemma ConfigureAcksOnce(o: Output, serial: u32, width: u32, height: u32, acquired: bool)
    ensures var u := ConfigureUpdate(o, serial, width, height, acquired);
            Count(u.effects, AckConfigure(o.layerSurface, serial)) == 1
  {
    var u := ConfigureUpdate(o, serial, width, height, acquired);
    var ack := AckConfigure(o.layerSurface, serial);
    var reconfigure := ConfigureSwapchain(o.surface, u.entry.wgpu.config);
    ConfigureEffects(o, serial, width, height, acquired);
    RenderNeverAcks(u.entry, acquired);
    CountAppend([reconfigure, ack], RenderTrace(u.entry, acquired), ack);
    CountPair(reconfigure, ack, ack);
  }

  /** The configure path presents exactly one frame (none when texture acquisition panics). */
  lemma ConfigurePresentsOnce(o: Output, serial: u32, width: u32, height: u32, acquired: bool)
    ensures var u := ConfigureUpdate(o, serial, width, height, acquired);
            Count(u.effects, Present(o.surface)) == if acquired then 1 else 0
  {
    var u := ConfigureUpdate(o, serial, width, height, acquired);
    var present := Present(o.surface);
    var reconfigure := ConfigureSwapchain(o.surface, u.entry.wgpu.config);
    ConfigureEffects(o, serial, width, height, acquired);
    RenderPresentsOnce(u.entry, acquired);
    CountAppend([reconfigure, AckConfigure(o.layerSurface, serial)], RenderTrace(u.entry, acquired), present);
    CountPair(reconfigure, AckConfigure(o.layerSurface, serial), present);
  }

  /** The frame the configure path presents comes after the acknowledgement. */
  lemma ConfigureAcksBeforePresent(o: Output, serial: u32, width: u32, height: u32)
    ensures var u := ConfigureUpdate(o, serial, width, height, true);
            Before(u.effects, AckConfigure(o.layerSurface, serial), Present(o.surface))
  {
    var u := ConfigureUpdate(o, serial, width, height, true);
    var render := RenderTrace(u.entry, true);
    ConfigureEffects(o, serial, width, height, true);
    assert u.effects[1] == AckConfigure(o.layerSurface, serial);
    assert u.effects[|u.effects| - 1] == render[|render| - 1];
  }

  /**
   * Delivering the same configure twice renders twice but leaves the entry
   * as a single delivery does.
   */
  lemma {:induction false} ConfigureIdempotent(o: Output, serial: u32, width: u32, height: u32)
    ensures var once := ConfigureUpdate(o, serial, width, height, true);
            var twice := ConfigureUpdate(once.entry, serial, width, height, true);
            twice.entry == once.entry
            && Count(once.effects + twice.effects, Present(o.surface)) == 2
  {
    var once := ConfigureUpdate(o, serial, width, height, true);
    var twice := ConfigureUpdate(once.entry, serial, width, height, true);
    ConfigurePresentsOnce(o, serial, width, height, true);
    ConfigurePresentsOnce(once.entry, serial, width, height, true);
    CountAppend(once.effects, twice.effects, Present(o.surface));
  }
}
