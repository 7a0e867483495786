/**
 * The registry object itself: the fields of `StatusBar`, updated in place by
 * its event handlers, together with the trace of requests it has issued.
 * Each handler is proved to do exactly what the step functions of
 * `Registry` specify, and to keep the registry well-formed.
 */
module Bar {
  import opened Types
  import opened Gpu
  import opened Wayland
  import opened Display
  import opened Registry

  class StatusBar {
    var outputManager: Option<ObjectId>
    var compositor: Option<ObjectId>
    var layerShell: Option<ObjectId>
    var outputs: seq<Output>
    var seat: Option<Seat>
    /** The next proxy id the connection hands out. */
    var nextId: ObjectId
    /** Every request issued so far, oldest first. */
    var trace: seq<Effect>

    function Snapshot(): RegistryState
      reads this
    {
      RegistryState(outputManager, compositor, layerShell, outputs, seat, nextId)
    }

    predicate Valid()
      reads this
    {
      Wf(Snapshot())
    }

    /** `StatusBar::new`: no handle bound, no display, nothing issued. */
    constructor ()
      ensures Snapshot() == Initial() && trace == []
      ensures Valid()
    {
      outputManager, compositor, layerShell := None, None, None;
      outputs, seat := [], None;
      nextId, trace := 0, [];
    }

    /** Allocates the id of a new proxy. */
    method NewProxy() returns (id: ObjectId)
      modifies this`nextId
      ensures id == old(nextId) && nextId == id + 1
    {
      id := nextId;
      nextId := nextId + 1;
    }

    /** `registry.bind`: a new proxy for the announced global. */
    method BindGlobal(name: u32, iface: string, version: u32) returns (id: ObjectId)
      modifies this`nextId, this`trace
      ensures id == old(nextId) && nextId == id + 1
      ensures trace == old(trace) + [Bind(name, iface, version, id)]
    {
      id := NewProxy();
      trace := trace + [Bind(name, iface, version, id)];
    }

    /**
     * The first half of the `wl_output` arm: bind the output, create the base
     * surface and its layer surface (1x1, anchored to the top, committed),
     * ask for the xdg output and start the renderer on the surface.
     */
    method RequestOutputObjects(name: u32, version: u32)
      returns (output: ObjectId, surface: ObjectId, layerSurface: ObjectId, xdgOutput: ObjectId)
      requires CanCreateOutputs(Snapshot())
      modifies this`nextId, this`trace
      ensures output == old(nextId) && surface == output + 1
      ensures layerSurface == output + 2 && xdgOutput == output + 3 && nextId == output + 4
      ensures trace == old(trace) + AnnounceRequests(old(Snapshot()), name, version)
    {
      output := BindGlobal(name, WL_OUTPUT, version);
      surface := NewProxy();
      trace := trace + [CreateSurface(compositor.value, surface)];
      layerSurface := NewProxy();
      trace := trace + [GetLayerSurface(layerShell.value, layerSurface, surface, output, Top, NAMESPACE)];
      trace := trace + [SetSize(layerSurface, 1, 1), SetAnchor(layerSurface, ANCHOR_TOP), Commit(surface)];
      xdgOutput := NewProxy();
      trace := trace + [GetXdgOutput(outputManager.value, xdgOutput, output), CreateGpuSurface(surface)];
    }

    /**
     * The second half of the `wl_output` arm: build the renderer and, when
     * it is ready, make the display entry from the four objects reserved
     * from `output` on.
     */
    method AttachRenderer(output: ObjectId, name: u32, gpu: GpuOracle)
      modifies this`outputs, this`trace
      ensures var t := AttachEntry(old(Snapshot()), output, name, gpu);
              Snapshot() == t.state && trace == old(trace) + t.effects
    {
      match NewSurface(gpu) {
        case Ready(wgpu) =>
          var created := NewOutput(output, output + 3, output + 1, output + 2, name, wgpu);
          trace := trace + created.effects;
          outputs := outputs + [created.entry];
        case Failed(_) =>
        case Panicked(message) =>
          trace := trace + [Panic(message)];
      }
    }

    /** The `wl_output` arm once the three factories are bound. */
    method CreateOutput(name: u32, version: u32, gpu: GpuOracle)
      requires CanCreateOutputs(Snapshot())
      modifies this
      ensures var t := AnnounceOutput(old(Snapshot()), name, version, gpu);
              Snapshot() == t.state && trace == old(trace) + t.effects
    {
      ghost var before := Snapshot();
      ghost var requests := AnnounceRequests(before, name, version);
      var output, _, _, _ := RequestOutputObjects(name, version);
      AttachRenderer(output, name, gpu);
      ghost var attached := AttachEntry(before.(nextId := output + 4), output, name, gpu);
      assert AnnounceOutput(before, name, version, gpu) == Transition(attached.state, requests + attached.effects);
      assert Snapshot() == attached.state;
      assert trace == old(trace) + (requests + attached.effects);
    }

    /**
     * `wl_registry.global`: bind the factories and the seat (a later
     * announcement of the same interface overwrites the handle), bind an
     * output and build its entry when the factories are there, ignore the
     * rest.
     */
    method HandleGlobal(name: u32, iface: string, version: u32, gpu: GpuOracle)
      modifies this
      ensures var t := OnGlobal(old(Snapshot()), name, iface, version, gpu);
              Snapshot() == t.state && trace == old(trace) + t.effects
    {
      if iface == WL_COMPOSITOR {
        var id := BindGlobal(name, iface, version);
        compositor := Some(id);
      } else if iface == XDG_OUTPUT_MANAGER {
        var id := BindGlobal(name, iface, version);
        outputManager := Some(id);
      } else if iface == LAYER_SHELL {
        var id := BindGlobal(name, iface, version);
        layerShell := Some(id);
      } else if iface == WL_SEAT {
        var id := BindGlobal(name, iface, version);
        seat := Some(Seat(id, None));
      } else if iface == WL_OUTPUT {
        if compositor.Some? && layerShell.Some? && outputManager.Some? {
          CreateOutput(name, version, gpu);
        } else {
          var _ := BindGlobal(name, iface, version);
        }
      }
    }

    /** `wl_registry.global_remove`: swap-remove the first entry announced under `name`. */
    method HandleGlobalRemove(name: u32)
      modifies this`outputs
      ensures Snapshot() == OnGlobalRemove(old(Snapshot()), name)
    {
      var index := FindEntry(outputs, ByName(name));
      if index.Some? {
        var i, last := index.value, |outputs| - 1;
        outputs := outputs[i := outputs[last]];
        outputs := outputs[..last];
        assert outputs == SwapRemove(old(outputs), i);
      }
    }

    /** `Dispatch<WlRegistry>::event`. */
    method HandleRegistryEvent(ev: RegistryEvent, gpu: GpuOracle)
      requires Valid()
      modifies this
      ensures Valid()
      ensures var t := OnRegistry(old(Snapshot()), ev, gpu);
              Snapshot() == t.state && trace == old(trace) + t.effects
    {
      ghost var before := Snapshot();
      match ev {
        case Global(name, iface, version) =>
          HandleGlobal(name, iface, version, gpu);
          GlobalPreservesWf(before, name, iface, version, gpu);
        case GlobalRemove(name) =>
          HandleGlobalRemove(name);
          RemovePreservesWf(before, name);
      }
    }

    /**
     * The body of `Dispatch<ZxdgOutputV1>::event`: find the entry by its xdg
     * output and cache a name or a logical size.
     */
    method ApplyXdgOutputEvent(origin: ObjectId, ev: XdgOutputEvent)
      modifies this`outputs
      ensures Snapshot() == OnXdgOutput(old(Snapshot()), origin, ev)
    {
      var index := FindEntry(outputs, ByXdgOutput(origin));
      if index.Some? {
        var i := index.value;
        match ev {
          case Name(name) =>
            outputs := outputs[i := outputs[i].(info := outputs[i].info.(name := name))];
          case LogicalSize(width, height) =>
            outputs := outputs[i := outputs[i].(info := outputs[i].info.(width := width, height := height))];
          case _ =>
        }
      }
    }

    /** `Dispatch<ZxdgOutputV1>::event`, which keeps the registry well-formed. */
    method HandleXdgOutputEvent(origin: ObjectId, ev: XdgOutputEvent)
      requires Valid()
      modifies this`outputs
      ensures Valid()
      ensures Snapshot() == OnXdgOutput(old(Snapshot()), origin, ev)
    {
      ghost var before := Snapshot();
      ApplyXdgOutputEvent(origin, ev);
      WfSameObjects(before, Snapshot());
    }

    /**
     * The body of `Dispatch<WlOutput>::event`: find the entry by its
     * output, forward a mode as a size request, cache a scale.
     */
    method ApplyWlOutputEvent(origin: ObjectId, ev: WlOutputEvent)
      modifies this`outputs, this`trace
      ensures var t := OnWlOutput(old(Snapshot()), origin, ev);
              Snapshot() == t.state && trace == old(trace) + t.effects
    {
      var index := FindEntry(outputs, ByOutput(origin));
      if index.Some? {
        var i := index.value;
        match ev {
          case Mode(_, width, height, _) =>
            trace := trace + [SetSize(outputs[i].layerSurface, AsU32(width), AsU32(height))];
          case Scale(factor) =>
            outputs := outputs[i := outputs[i].(info := outputs[i].info.(scale := factor))];
          case _ =>
        }
      }
    }

    /** `Dispatch<WlOutput>::event`, which keeps the registry well-formed. */
    method HandleWlOutputEvent(origin: ObjectId, ev: WlOutputEvent)
      requires Valid()
      modifies this`outputs, this`trace
      ensures Valid()
      ensures var t := OnWlOutput(old(Snapshot()), origin, ev);
              Snapshot() == t.state && trace == old(trace) + t.effects
    {
      ghost var before := Snapshot();
      ApplyWlOutputEvent(origin, ev);
      WfSameObjects(before, Snapshot());
    }

    /**
     * The configure path on entry `i`: resize the renderer, write the size
     * into its configuration again, re-apply it to the surface, acknowledge
     * the serial, render one frame.
     */
    method Reconfigure(i: nat, serial: u32, width: u32, height: u32, acquired: bool)
      requires i < |outputs|
      modifies this`outputs, this`trace
      ensures var u := ConfigureUpdate(old(outputs[i]), serial, width, height, acquired);
              outputs == old(outputs)[i := u.entry] && trace == old(trace) + u.effects
    {
      var entry := outputs[i].(wgpu := Resize(outputs[i].wgpu, width, height));
      var config := entry.wgpu.config.(width := width, height := height);
      entry := entry.(wgpu := entry.wgpu.(config := config));
      outputs := outputs[i := entry];
      trace := trace + [ConfigureSwapchain(entry.surface, config), AckConfigure(entry.layerSurface, serial)];
      trace := trace + RenderTrace(entry, acquired);
    }

    /**
     * The body of `Dispatch<ZwlrLayerSurfaceV1>::event`: find the entry by
     * its layer surface, return unless there is one and the event is a
     * configure, then run the configure path on it.
     */
    method ApplyLayerSurfaceEvent(origin: ObjectId, ev: LayerSurfaceEvent, acquired: bool)
      modifies this`outputs, this`trace
      ensures var t := OnLayerSurface(old(Snapshot()), origin, ev, acquired);
              Snapshot() == t.state && trace == old(trace) + t.effects
    {
      ghost var before := Snapshot();
      var index := FindEntry(outputs, ByLayerSurface(origin));
      if index.None? {
        LayerSurfaceIgnored(before, origin, ev, acquired);
        return;
      }
      if !ev.Configure? {
        LayerSurfaceIgnored(before, origin, ev, acquired);
        return;
      }
      var i := index.value;
      Reconfigure(i, ev.serial, ev.width, ev.height, acquired);
      ghost var u := ConfigureUpdate(before.outputs[i], ev.serial, ev.width, ev.height, acquired);
      assert Snapshot() == before.(outputs := before.outputs[i := u.entry]);
      assert OnLayerSurface(before, origin, ev, acquired) == Transition(before.(outputs := before.outputs[i := u.entry]), u.effects);
    }

    /** `Dispatch<ZwlrLayerSurfaceV1>::event`, which keeps the registry well-formed. */
    method HandleLayerSurfaceEvent(origin: ObjectId, ev: LayerSurfaceEvent, acquired: bool)
      requires Valid()
      modifies this`outputs, this`trace
      ensures Valid()
      ensures var t := OnLayerSurface(old(Snapshot()), origin, ev, acquired);
              Snapshot() == t.state && trace == old(trace) + t.effects
    {
      ghost var before := Snapshot();
      ApplyLayerSurfaceEvent(origin, ev, acquired);
      LayerSurfaceKeepsObjects(before, origin, ev, acquired);
      WfSameObjects(before, Snapshot());
    }
  }
}
