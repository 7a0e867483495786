/**
 * The client's boundary with the compositor and the GPU: the inbound events
 * the registry dispatches, and the outbound requests and driver calls it
 * makes, recorded as an ordered trace of `Effect`s.
 */
module Wayland {
  import opened Types
  import opened Gpu

  /** Interface names announced through `wl_registry.global`. */
  const WL_COMPOSITOR: string := "wl_compositor"
  const XDG_OUTPUT_MANAGER: string := "zxdg_output_manager_v1"
  const LAYER_SHELL: string := "zwlr_layer_shell_v1"
  const WL_SEAT: string := "wl_seat"
  const WL_OUTPUT: string := "wl_output"

  /** Namespace passed to `get_layer_surface`. */
  const NAMESPACE: string := "status bar"

  /** Stacking layer of a layer-shell surface. */
  datatype Layer = Background | Bottom | Top | Overlay

  /** The `zwlr_layer_surface_v1.anchor` bit set. */
  datatype Anchor = Anchor(top: bool, bottom: bool, left: bool, right: bool)

  const ANCHOR_TOP: Anchor := Anchor(true, false, false, false)
  const ANCHOR_ALL: Anchor := Anchor(true, true, true, true)

  /** An RGBA colour with which a render pass clears its target. */
  datatype Rgba = Rgba(r: real, g: real, b: real, a: real)

  const TRANSPARENT: Rgba := Rgba(0.0, 0.0, 0.0, 0.0)

  /** Events of `wl_registry`. */
  datatype RegistryEvent =
    | Global(name: u32, iface: string, version: u32)
    | GlobalRemove(name: u32)

  /** Events of `zxdg_output_v1`. */
  datatype XdgOutputEvent =
    | LogicalPosition(x: i32, y: i32)
    | LogicalSize(width: i32, height: i32)
    | XdgDone
    | Name(name: string)
    | Description(description: string)

  /** Events of `wl_output` (subpixel and transform enums are not represented). */
  datatype WlOutputEvent =
    | Geometry(x: i32, y: i32, physicalWidth: i32, physicalHeight: i32, make: string, model: string)
    | Mode(flags: u32, width: i32, height: i32, refresh: i32)
    | OutputDone
    | Scale(factor: i32)
    | OutputName(name: string)
    | OutputDescription(description: string)

  /** Events of `zwlr_layer_surface_v1`. */
  datatype LayerSurfaceEvent =
    | Configure(serial: u32, width: u32, height: u32)
    | Closed

  /** An outbound protocol request or GPU driver call, in issue order. */
  datatype Effect =
    | Bind(name: u32, iface: string, version: u32, id: ObjectId)
    | CreateSurface(compositor: ObjectId, surface: ObjectId)
    | GetLayerSurface(layerShell: ObjectId, layerSurface: ObjectId, surface: ObjectId, output: ObjectId,
                      layer: Layer, namespace: string)
    | SetSize(layerSurface: ObjectId, width: u32, height: u32)
    | SetAnchor(layerSurface: ObjectId, anchor: Anchor)
    | SetExclusiveZone(layerSurface: ObjectId, zone: i32)
    | SetLayer(layerSurface: ObjectId, layer: Layer)
    | Commit(surface: ObjectId)
    | GetXdgOutput(outputManager: ObjectId, xdgOutput: ObjectId, output: ObjectId)
    | CreateGpuSurface(surface: ObjectId)
    | ConfigureSwapchain(surface: ObjectId, config: SurfaceConfiguration)
    | AckConfigure(layerSurface: ObjectId, serial: u32)
    | AcquireTexture(surface: ObjectId)
    | BeginRenderPass(clearTo: Rgba)
    | SetPipeline
    | SetVertexBuffer(vertices: seq<Vertex>)
    | Draw(vertexCount: u32, instanceCount: u32)
    | EndRenderPass
    | Submit
    | Present(surface: ObjectId)
    | Panic(message: string)

  /** `a` occurs in `trace` strictly before some occurrence of `b`. */
  predicate Before(trace: seq<Effect>, a: Effect, b: Effect) {
    exists i, j :: 0 <= i < j < |trace| && trace[i] == a && trace[j] == b
  }

  /** Number of occurrences of `e` in `trace`. */
  function Count(trace: seq<Effect>, e: Effect): (n: nat)
    ensures n <= |trace|
    ensures n == 0 <==> e !in trace
  {
    if trace == [] then 0
    else (if trace[0] == e then 1 else 0) + Count(trace[1..], e)
  }

  lemma {:induction false} CountAppend(a: seq<Effect>, b: seq<Effect>, e: Effect)
    ensures Count(a + b, e) == Count(a, e) + Count(b, e)
  {
    if a == [] {
      assert a + b == b;
    } else {
      assert (a + b)[1..] == a[1..] + b;
      CountAppend(a[1..], b, e);
    }
  }

  /** A one-call trace holds `e` once if it is that call, else not at all. */
  lemma CountSingle(x: Effect, e: Effect)
    ensures Count([x], e) == if x == e then 1 else 0
  {
    assert [x][1..] == [];
  }

  lemma CountPair(x: Effect, y: Effect, e: Effect)
    ensures Count([x, y], e) == (if x == e then 1 else 0) + (if y == e then 1 else 0)
  {
    assert [x, y] == [x] + [y];
    CountAppend([x], [y], e);
    CountSingle(x, e);
    CountSingle(y, e);
  }
}
