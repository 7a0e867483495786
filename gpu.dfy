/**
 * The per-display GPU renderer (`WgpuSurface`): how its swapchain
 * configuration is chosen from the capabilities the adapter reports, how
 * construction fails, and how `resize` updates the configuration.
 *
 * Every call into the GPU driver is abstracted by a `GpuOracle` that says
 * which steps succeed and which capability lists the surface reports.
 */
module Gpu {
  import opened Types

  /** A texture format; only whether it is sRGB-encoded matters here. */
  datatype TextureFormat = TextureFormat(code: nat, isSrgb: bool)

  datatype PresentMode = AutoVsync | AutoNoVsync | Fifo | FifoRelaxed | Immediate | Mailbox

  datatype CompositeAlphaMode = Auto | Opaque | PreMultiplied | PostMultiplied | Inherit

  /** What `Surface::get_capabilities` reports for an adapter. */
  datatype SurfaceCapabilities = SurfaceCapabilities(
    formats: seq<TextureFormat>,
    presentModes: seq<PresentMode>,
    alphaModes: seq<CompositeAlphaMode>)

  /** The swapchain configuration record (`wgpu::SurfaceConfiguration`). */
  datatype SurfaceConfiguration = SurfaceConfiguration(
    format: TextureFormat,
    width: u32,
    height: u32,
    presentMode: PresentMode,
    alphaMode: CompositeAlphaMode,
    viewFormats: seq<TextureFormat>,
    desiredMaximumFrameLatency: u32)

  /** One vertex of the static triangle: a 2-D position and an RGBA colour. */
  datatype Vertex = Vertex(x: real, y: real, r: real, g: real, b: real, a: real)

  /** The three vertices uploaded once into every renderer's vertex buffer. */
  const VERTICES: seq<Vertex> := [
    Vertex(0.0, 0.5, 1.0, 0.0, 0.0, 0.5),
    Vertex(-0.5, 0.5, 0.0, 1.0, 0.0, 0.5),
    Vertex(0.5, -0.5, 0.0, 0.0, 1.0, 0.5)
  ]

  /**
   * A constructed renderer. Adapter, device, queue, shader and pipeline are
   * opaque driver objects and are not represented; what the model keeps is
   * the mutable configuration and the vertex data the draw call uses.
   */
  datatype WgpuSurface = WgpuSurface(
    config: SurfaceConfiguration,
    vertexBuffer: seq<Vertex>,
    numVertices: u32)

  /** Outcomes of the driver calls made while constructing a renderer. */
  datatype GpuOracle = GpuOracle(
    windowHandleNonNull: bool,
    surfaceCreated: bool,
    adapterFound: bool,
    deviceCreated: bool,
    caps: SurfaceCapabilities)

  /** The errors `WgpuSurface::new` returns, in the order it can meet them. */
  datatype SurfaceError =
    | NullWindowHandle
    | SurfaceCreationFailed
    | NoAdapter
    | DeviceRequestFailed

  /**
   * Result of `WgpuSurface::new`: a ready renderer, an error return, or a
   * panic (indexing an empty capability list).
   */
  datatype Construction =
    | Ready(surface: WgpuSurface)
    | Failed(error: SurfaceError)
    | Panicked(message: string)

  const INDEX_OUT_OF_BOUNDS: string := "index out of bounds"

  /** True when no step before the capability query fails. */
  predicate DriverSucceeds(gpu: GpuOracle) {
    gpu.windowHandleNonNull && gpu.surfaceCreated && gpu.adapterFound && gpu.deviceCreated
  }

  /** True when every capability list the configuration indexes is non-empty. */
  predicate CapsUsable(caps: SurfaceCapabilities) {
    |caps.formats| > 0 && |caps.presentModes| > 0 && |caps.alphaModes| > 0
  }

  /**
   * The swapchain format: the first sRGB format reported, else the first
   * format. The fallback `formats[0]` is evaluated unconditionally, hence the
   * non-empty list.
   */
  function ChooseFormat(formats: seq<TextureFormat>): (f: TextureFormat)
    requires |formats| > 0
    ensures f.isSrgb <==> exists k :: 0 <= k < |formats| && formats[k].isSrgb
    ensures f.isSrgb ==> exists k :: 0 <= k < |formats| && formats[k] == f && forall j :: 0 <= j < k ==> !formats[j].isSrgb
    ensures !f.isSrgb ==> f == formats[0]
  {
    Find(formats, (t: TextureFormat) => t.isSrgb).GetOr(formats[0])
  }

  /** The alpha mode: pre-multiplied when the surface offers it, else the first mode. */
  function ChooseAlphaMode(modes: seq<CompositeAlphaMode>): (a: CompositeAlphaMode)
    requires |modes| > 0
    ensures PreMultiplied in modes ==> a == PreMultiplied
    ensures PreMultiplied !in modes ==> a == modes[0]
  {
    Find(modes, (m: CompositeAlphaMode) => m == PreMultiplied).GetOr(modes[0])
  }

  /** The configuration assembled at construction time. */
  function InitialConfig(caps: SurfaceCapabilities): (c: SurfaceConfiguration)
    requires CapsUsable(caps)
    ensures c.width == 1 && c.height == 1
    ensures c.desiredMaximumFrameLatency == 2
    ensures c.format == ChooseFormat(caps.formats) && c.format in caps.formats
    ensures c.alphaMode == ChooseAlphaMode(caps.alphaModes) && c.alphaMode in caps.alphaModes
    ensures c.presentMode == caps.presentModes[0]
    ensures c.viewFormats == []
  {
    SurfaceConfiguration(
      format := ChooseFormat(caps.formats),
      width := 1,
      height := 1,
      presentMode := caps.presentModes[0],
      alphaMode := ChooseAlphaMode(caps.alphaModes),
      viewFormats := [],
      desiredMaximumFrameLatency := 2)
  }

  /**
   * `WgpuSurface::new`: the first failing driver step decides the error; no
   * partially built renderer is ever returned.
   */
  function NewSurface(gpu: GpuOracle): (r: Construction)
    ensures !gpu.windowHandleNonNull ==> r == Failed(NullWindowHandle)
    ensures gpu.windowHandleNonNull && !gpu.surfaceCreated ==> r == Failed(SurfaceCreationFailed)
    ensures gpu.windowHandleNonNull && gpu.surfaceCreated && !gpu.adapterFound ==> r == Failed(NoAdapter)
    ensures gpu.windowHandleNonNull && gpu.surfaceCreated && gpu.adapterFound && !gpu.deviceCreated
      ==> r == Failed(DeviceRequestFailed)
    ensures r.Panicked? <==> DriverSucceeds(gpu) && !CapsUsable(gpu.caps)
    ensures r.Ready? <==> DriverSucceeds(gpu) && CapsUsable(gpu.caps)
    ensures r.Ready? ==> r.surface.config == InitialConfig(gpu.caps)
    ensures r.Ready? ==> r.surface.vertexBuffer == VERTICES && r.surface.numVertices == 3
  {
    if !gpu.windowHandleNonNull then Failed(NullWindowHandle)
    else if !gpu.surfaceCreated then Failed(SurfaceCreationFailed)
    else if !gpu.adapterFound then Failed(NoAdapter)
    else if !gpu.deviceCreated then Failed(DeviceRequestFailed)
    else if !CapsUsable(gpu.caps) then Panicked(INDEX_OUT_OF_BOUNDS)
    else Ready(WgpuSurface(InitialConfig(gpu.caps), VERTICES, |VERTICES|))
  }

  /** `a` and `b` agree on everything except the swapchain width and height. */
  predicate SameExceptSize(a: SurfaceConfiguration, b: SurfaceConfiguration) {
    a.format == b.format && a.presentMode == b.presentMode && a.alphaMode == b.alphaMode
    && a.viewFormats == b.viewFormats && a.desiredMaximumFrameLatency == b.desiredMaximumFrameLatency
  }

  /** `WgpuSurface::resize`: replaces the cached width and height, nothing else. */
  function Resize(s: WgpuSurface, width: u32, height: u32): (r: WgpuSurface)
    ensures r.config.width == width && r.config.height == height
    ensures SameExceptSize(r.config, s.config)
    ensures r.vertexBuffer == s.vertexBuffer && r.numVertices == s.numVertices
  {
    s.(config := s.config.(width := width, height := height))
  }

  /** Resizing twice to the same size is the same as resizing once. */
  lemma ResizeIdempotent(s: WgpuSurface, width: u32, height: u32)
    ensures Resize(Resize(s, width, height), width, height) == Resize(s, width, height)
  {
  }

  /** Only the last of two resizes is visible. */
  lemma ResizeLastWins(s: WgpuSurface, w1: u32, h1: u32, w2: u32, h2: u32)
    ensures Resize(Resize(s, w1, h1), w2, h2) == Resize(s, w2, h2)
  {
  }

  /** The draw call covers every uploaded vertex: one triangle. */
  lemma VertexCount()
    ensures |VERTICES| == 3
    ensures forall gpu :: NewSurface(gpu).Ready? ==> NewSurface(gpu).surface.numVertices == |VERTICES|
  {
  }
}
