/**
 * One display's life, end to end: the three factories are announced, then
 * a display, then its layer surface is configured, then the display is
 * removed.
 */
module Scenarios {
  import opened Types
  import opened Gpu
  import opened Wayland
  import opened Display
  import opened Registry

  /** The state after the compositor, the layer shell and the xdg output manager are announced, in that order. */
  function FactoriesBound(gpu: GpuOracle): RegistryState {
    var s1 := OnGlobal(Initial(), 1, WL_COMPOSITOR, 4, gpu).state;
    var s2 := OnGlobal(s1, 2, LAYER_SHELL, 4, gpu).state;
    OnGlobal(s2, 3, XDG_OUTPUT_MANAGER, 3, gpu).state
  }

  /**
   * With a renderer that can be built, after the three factories (ids 0-2):
   * announcing display `name` yields exactly one entry, carrying `name`,
   * with a 1x1 swapchain and layer surface 5; a configure of that layer
   * surface resizes the swapchain to the event's size, acknowledges the
   * serial once and presents one frame; removing global `name` then leaves
   * no entry.
   */
  lemma OneDisplayLifecycle(gpu: GpuOracle, name: u32, serial: u32, width: u32, height: u32)
    requires NewSurface(gpu).Ready?
    ensures var announced := OnGlobal(FactoriesBound(gpu), name, WL_OUTPUT, 4, gpu).state;
            && |announced.outputs| == 1 && announced.outputs[0].info.id == name
            && announced.outputs[0].wgpu.config.width == 1 && announced.outputs[0].wgpu.config.height == 1
            && announced.outputs[0].layerSurface == 5 && announced.outputs[0].surface == 4
    ensures var announced := OnGlobal(FactoriesBound(gpu), name, WL_OUTPUT, 4, gpu).state;
            var configured := OnLayerSurface(announced, 5, Configure(serial, width, height), true);
            && |configured.state.outputs| == 1
            && configured.state.outputs[0].wgpu.config.width == width
            && configured.state.outputs[0].wgpu.config.height == height
            && Count(configured.effects, AckConfigure(5, serial)) == 1
            && Count(configured.effects, Present(4)) == 1
            && OnGlobalRemove(configured.state, name).outputs == []
  {
    var bound := FactoriesBound(gpu);
    assert bound == RegistryState(Some(2), Some(0), Some(1), [], None, 3);
    var announced := OnGlobal(bound, name, WL_OUTPUT, 4, gpu).state;
    AnnounceOutputShape(bound, name, 4, gpu);
    var e := announced.outputs[0];
    assert FirstMatch(announced.outputs, ByLayerSurface(5)) == Some(0);
    var ev := Configure(serial, width, height);
    LayerSurfaceConfigures(announced, 5, ev, true);
    ConfigureReconfiguresFirst(e, serial, width, height, true);
    ConfigureAcksOnce(e, serial, width, height, true);
    ConfigurePresentsOnce(e, serial, width, height, true);
    var configured := OnLayerSurface(announced, 5, ev, true);
    assert configured.state.outputs[0].info.id == name;
    assert FirstMatch(configured.state.outputs, ByName(name)) == Some(0);
  }
}
