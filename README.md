# Seto overlay client: the display registry

This project models the per-display state machine of Seto, a Wayland overlay
client. Seto binds the compositor, the wlr layer shell and the xdg output
manager. For every monitor the compositor announces, it builds a display entry:

- the `wl_output`;
- a surface turned into a full-screen overlay layer surface;
- an xdg output;
- a GPU renderer (`WgpuSurface`) whose swapchain is configured on each layer-surface `configure`.

The model is organised by source file:

- `types.dfy` (module `Types`) holds the shared vocabulary:
  - the protocol's 32-bit integers, as bounded `int` subset types;
  - `Option`;
  - the two Rust collection operations the handlers rely on: the first-match search (`iter().find` / `position`) and `Vec::swap_remove`.
- `gpu.dfy` (module `Gpu`) covers `src/output/wgpu_surface.rs`:
  - the choice of format, alpha mode and present mode from the reported capabilities;
  - the initial swapchain configuration;
  - the four error returns of construction, plus the panic when a capability list is empty;
  - `resize`.

  Every driver call's outcome comes from a `GpuOracle` parameter.
- `wayland.dfy` (module `Wayland`) defines the inbound events and the outbound requests and GPU calls.
  - Outbound calls are recorded as an ordered trace of `Effect`s.
  - `Before` and `Count` are the order and multiplicity predicates over a trace.
- `display.dfy` (module `Display`) covers `src/output.rs`: `OutputInfo::new`, `Output::new`, `Output::render` as a trace, and what each routed event does to the entry it reaches.
- `registry.dfy` (module `Registry`) specifies the registry (`StatusBar` in `src/main.rs`, plus the `Dispatch` impls of `src/output.rs`) as pure step functions:
  - `OnGlobal`, `OnGlobalRemove`, `OnXdgOutput`, `OnWlOutput` and `OnLayerSurface`;
  - `Step` and `Run` over a sequence of events;
  - the well-formedness invariant `Wf`: every object an entry owns was allocated, and no two entries share an object;
  - the lemmas about these.
- `status_bar.dfy` (module `Bar`) is the `StatusBar` object itself.
  - Its fields are updated in place by its handlers, and it keeps a trace of the requests issued so far.
  - Each handler is proved to produce exactly the step function's new state and requests, and to keep `Wf`.
- `scenarios.dfy` (module `Scenarios`) follows one display's life:
  1. the factories are bound;
  2. the display is announced;
  3. its layer surface is configured;
  4. it is removed.

Protocol objects are integers handed out by a counter (`nextId`): every `bind` and `create_*` request takes the next one. That makes object identity and "the entry whose layer surface sent this event" precise. Under `Wf`, the first match is the only match (`RoutingUnique`).

The model follows the code where it differs from the design description:

- **Layer surface.** The code first creates it on the `Top` layer, anchored to the top edge, sized 1x1 and committed. Only `Output::new` then anchors it to every edge, sets exclusive zone -1 and moves it to the `Overlay` layer.
- **Capability handles.** These are overwritten by a repeated announcement (last bind wins), not set once.

One consequence of the code is stated and proved rather than corrected. A `wl_output` announced before all three factories are bound is bound and then dropped. That display never gets an entry, and nothing from that output is ever routed anywhere (`GatedAnnouncementNeverCreates`, `DroppedOutputIgnored`).

## Model

| member | source | states |
|---|---|---|
| Types.AsU32 | src/output.rs:151 | `width as u32` on an `i32`: a non-negative value is kept, a negative one becomes value + 2^32 |
| Types.FindIndex | src/main.rs:165-170 | the index found satisfies the predicate and no earlier element does; none is found exactly when no element satisfies it |
| Types.SwapRemove | src/main.rs:173 | `swap_remove(i)`: one element shorter, the former last element now sits at `i`, every other index unchanged |
| Types.SwapRemoveMultiset | src/main.rs:173 | `swap_remove(i)` takes out exactly the element at `i`: what remains plus that element is the original multiset |
| Gpu.ChooseFormat | src/output/wgpu_surface.rs:90-95 | the chosen format is sRGB iff some reported format is, and is then the first sRGB one; otherwise it is `formats[0]` |
| Gpu.ChooseAlphaMode | src/output/wgpu_surface.rs:97-101 | `PreMultiplied` when the surface reports it, otherwise `alpha_modes[0]` |
| Gpu.InitialConfig | src/output/wgpu_surface.rs:103-112 | 1x1, frame latency 2, no view formats, `present_modes[0]`, and a format and alpha mode chosen by the rules above from the reported lists |
| Gpu.NewSurface | src/output/wgpu_surface.rs:54-161 | the first failing step (null window handle, surface, adapter, device) decides the error; an empty capability list panics; otherwise a renderer with the initial config and the 3 static vertices |
| Gpu.Resize | src/output/wgpu_surface.rs:163-166 | sets width and height and leaves format, present mode, alpha mode, view formats, latency and vertex data unchanged |
| Gpu.ResizeIdempotent | src/output/wgpu_surface.rs:163-166 | resizing twice to the same size equals resizing once |
| Gpu.ResizeLastWins | src/output/wgpu_surface.rs:163-166 | of two successive resizes only the last is visible |
| Gpu.VertexCount | src/output/wgpu_surface.rs:159 | `num_vertices` of every constructed renderer is the length of `VERTICES`, which is 3 |
| Display.NewInfo | src/output.rs:20-28 | a fresh geometry cache: empty name, 0x0, scale 1, the given registry name as id |
| Display.NewOutput | src/output.rs:41-61 | the entry stores exactly the given objects, renderer and a fresh `OutputInfo` for `id`, and issues three layer-surface requests |
| Display.NewOutputOrder | src/output.rs:49-51 | anchor to all edges comes before exclusive zone -1, which comes before the `Overlay` layer |
| Display.RenderTrace | src/output.rs:63-96 | a render starts by acquiring the surface's texture and ends by presenting it, or with the acquisition panic |
| Display.RenderPresentsOnce | src/output.rs:94-95 | a render presents exactly one frame, none when acquisition fails |
| Display.RenderOrder | src/output.rs:74-95 | clear to transparent, then draw `num_vertices` vertices once, then submit, then present; a failed acquisition draws nothing |
| Display.RenderNeverAcks | src/output.rs:63-96 | rendering neither reconfigures the swapchain nor acknowledges a configure |
| Display.XdgOutputUpdate | src/output.rs:116-123 | `Name` sets only the cached name, `LogicalSize` only width and height, any other event changes nothing; objects and renderer kept |
| Display.WlOutputUpdate | src/output.rs:144-156 | `Mode` changes nothing and requests the layer-surface size `(width as u32, height as u32)`; `Scale` sets only the cached scale; others do nothing |
| Display.ConfigureUpdate | src/output.rs:199-211 | the swapchain takes the event's size with all other settings kept; the first request reconfigures the surface with it, the second acknowledges the serial |
| Display.ConfigureReconfiguresFirst | src/output.rs:199-209 | the config applied to the surface already has the event's width and height, and is applied before the acknowledgement |
| Display.ConfigureAcksOnce | src/output.rs:209 | the configure path acknowledges its serial exactly once |
| Display.ConfigurePresentsOnce | src/output.rs:211 | the configure path presents exactly one frame, none when acquisition fails |
| Display.ConfigureAcksBeforePresent | src/output.rs:209-211 | the acknowledgement precedes the presented frame |
| Display.ConfigureIdempotent | src/output.rs:199-202 | the same configure delivered twice leaves the entry as one delivery does, and presents twice |
| Registry.FirstMatch | src/output.rs:108-114 | the entry found matches the key and no earlier one does; none is found exactly when no entry matches |
| Registry.FindEntry | src/main.rs:165-170 | the linear search returns exactly the first matching index |
| Registry.AnnounceOutputShape | src/main.rs:120-160 | with the factories bound, an output announcement reserves four ids, keeps every handle, and binds the output first. It appends exactly one entry (the announced name, a fresh cache, the built renderer, the four reserved objects) when the renderer is built, and none otherwise |
| Registry.OnGlobal | src/main.rs:78-162 | a factory or seat announcement binds and overwrites just that handle and adds no entry; an unknown interface changes nothing and issues nothing; every handled announcement starts with its bind |
| Registry.OnGlobalRemove | src/main.rs:164-175 | no matching name: nothing changes; otherwise the first match is swap-removed and all else kept |
| Registry.OnXdgOutput | src/output.rs:99-125 | only the first entry holding that xdg output is updated; none holding it: no change; objects of all entries kept |
| Registry.OnWlOutput | src/output.rs:127-159 | only the first entry holding that output is updated, with its requests; none holding it: no change and no request |
| Registry.LayerSurfaceIgnored | src/output.rs:182-197 | `closed`, or any event from a layer surface no entry holds, changes nothing and issues nothing |
| Registry.LayerSurfaceConfigures | src/output.rs:182-211 | a configure reaches only the first entry holding that layer surface, and its requests are that entry's configure path |
| Registry.LayerSurfaceKeepsObjects | src/output.rs:173-212 | a layer-surface event keeps the handles, the number of entries and every entry's objects |
| Registry.GlobalProvenance | src/main.rs:120-160 | after an announcement every entry was there before, or was created by that very output announcement from fresh objects |
| Registry.RemoveProvenance | src/main.rs:164-175 | after a removal every entry was there before |
| Registry.StepProvenance | src/main.rs:78-175 | after any event every entry is an old one or the one its output announcement created from fresh objects; allocation never goes back |
| Registry.GlobalPreservesWf | src/main.rs:78-162 | announcements keep every entry's objects allocated and pairwise disjoint |
| Registry.RemovePreservesWf | src/main.rs:164-175 | removals keep well-formedness |
| Registry.RemoveTakesOutMatch | src/main.rs:165-173 | a removal takes out exactly the first entry with that name; the others are kept as a multiset |
| Registry.RemoveReleasesObjects | src/main.rs:172-173 | no remaining entry owns any object of the removed entry |
| Registry.StepPreservesWf | src/main.rs:78-175 | every handler keeps well-formedness |
| Registry.RoutingUnique | src/output.rs:182-188 | under well-formedness an event's origin object belongs to one entry only: the first match is that entry |
| Registry.RunPreservesWf | src/main.rs:78-175 | well-formedness holds after any sequence of events |
| Registry.OutputAnnouncementGate | src/main.rs:120-160 | an output announcement adds one entry iff all three factories are bound and the renderer is built; otherwise the list is unchanged |
| Registry.NewEntryAppended | src/main.rs:152-159 | the new entry is appended after the existing ones, carries the announced name and a fresh cache, and has a 1x1 swapchain |
| Registry.SizedBeforeCommit | src/main.rs:138-140 | the layer surface is sized 1x1 before the surface is committed |
| Registry.XdgOutputBeforeRenderer | src/main.rs:142-150 | the xdg output is requested before the renderer is built on the surface |
| Registry.OverlayAfterRenderer | src/main.rs:144-159 | `Output::new`'s overlay requests come after the renderer is built |
| Registry.NoLateCreation | src/main.rs:120-160 | over any run, no entry appears under a name that no event announces as an output |
| Registry.GatedAnnouncementNeverCreates | src/main.rs:121-127 | an output announced before the factories are bound never gets an entry, whatever is announced later, unless its name is announced again |
| Registry.UnownedStaysUnowned | src/main.rs:120-175 | an allocated object owned by no entry is never owned by one later |
| Registry.DroppedOutputIgnored | src/main.rs:121-127 | the output bound by a too-early announcement is never routed to: its later events are ignored |
| Bar.StatusBar.constructor | src/main.rs:30-39 | `StatusBar::new`: no handle, no seat, no display, nothing issued |
| Bar.StatusBar.BindGlobal | src/main.rs:121 | `registry.bind`: a new proxy id and one `Bind` request appended to the trace |
| Bar.StatusBar.RequestOutputObjects | src/main.rs:121-142 | binds the output and creates surface, layer surface and xdg output with the next four ids, issuing exactly `AnnounceRequests` |
| Bar.StatusBar.AttachRenderer | src/main.rs:144-159 | the fields and trace after it are `AttachEntry`'s: push the entry when the renderer is ready, record a panic, else nothing |
| Bar.StatusBar.CreateOutput | src/main.rs:120-160 | the fields and trace after it are `AnnounceOutput`'s |
| Bar.StatusBar.HandleGlobal | src/main.rs:78-162 | the fields and trace after it are `OnGlobal`'s |
| Bar.StatusBar.HandleGlobalRemove | src/main.rs:164-175 | the find-then-swap-remove in place yields `OnGlobalRemove`'s state |
| Bar.StatusBar.HandleRegistryEvent | src/main.rs:69-178 | the fields and trace after it are `OnRegistry`'s, and well-formedness is kept |
| Bar.StatusBar.ApplyXdgOutputEvent | src/output.rs:108-123 | updating the found entry in place yields `OnXdgOutput`'s state |
| Bar.StatusBar.HandleXdgOutputEvent | src/output.rs:99-125 | as `OnXdgOutput`, and well-formedness is kept |
| Bar.StatusBar.ApplyWlOutputEvent | src/output.rs:136-157 | the fields and trace after it are `OnWlOutput`'s |
| Bar.StatusBar.HandleWlOutputEvent | src/output.rs:127-159 | as `OnWlOutput`, and well-formedness is kept |
| Bar.StatusBar.Reconfigure | src/output.rs:199-211 | entry `i` becomes `ConfigureUpdate`'s entry, the others are kept, and its requests are appended to the trace |
| Bar.StatusBar.ApplyLayerSurfaceEvent | src/output.rs:182-211 | the fields and trace after it are `OnLayerSurface`'s |
| Bar.StatusBar.HandleLayerSurfaceEvent | src/output.rs:173-212 | as `OnLayerSurface`, and well-formedness is kept |
| Scenarios.OneDisplayLifecycle | src/main.rs:120-175 | after the three factories, announcing a display yields one entry with its name and a 1x1 swapchain. Configuring its layer surface resizes the swapchain to the event, acknowledges once and presents once. Removing it leaves no entry |

## Left out

- `WgpuState` (`src/wgpu_state.rs`) is not part of this model. It is the GPU instance bootstrap and raw display handle, a foreign call with no logic; it is absent from the registry's state.
- The seat handler (`src/seat.rs`) is not part of this model. The seat is recorded when bound, with no keyboard; the `get_keyboard` request and the empty keyboard handler are not modelled.
- `main()` and the event loop (src/main.rs:46-67) are I/O plumbing. Sequential dispatch is modelled by `Run`, each handler running to completion.
- `StatusBar::render` (src/main.rs:41-43) is never called by the program and is not modelled.
- Pipeline layout, shader, render pipeline and vertex buffer construction (src/output/wgpu_surface.rs:80-87, 114-148) are foreign GPU calls. They are treated as always succeeding. The `usage` field of the configuration is not represented, and the vertex floats are kept only as data.
- Texture acquisition and presentation are abstract. `acquired` says whether `get_current_texture` succeeds; a failure is recorded as a `Panic` effect.
- Panics are recorded as trace effects and the model keeps running after them. Nothing is claimed about what would follow a panic in the real program, which aborts.
- Wayland object lifetimes are not modelled: dropping a removed entry's objects (resource release on drop), and the proxies leaked when construction fails after the binds. Identity is a counter-allocated integer.
- The `geometry`, `done`, `name` and `description` events of `wl_output`, and the `logical_position`, `done` and `description` events of `zxdg_output_v1`, have no effect in the source; they are modelled as no-ops. The subpixel and transform enums of `geometry` are not represented.
- `wl_surface` events (src/output.rs:161-171) are ignored by the source and are not modelled.
- The `unreachable!()` arm of the registry dispatch (src/main.rs:176) has no model: `RegistryEvent` has exactly the two variants the protocol defines.
- Integer widths: `u32` and `i32` are bounded subset types of `int`. The only conversion, `as u32` on the mode size, is written out (`AsU32`). The proxy id counter is unbounded.
