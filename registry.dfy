/**
 * The display registry (`StatusBar`): the bound capability handles, the
 * optional seat and the list of display entries, and how `wl_registry`
 * announcements and removals, and the per-display events routed to an
 * entry, change them.
 *
 * The pure step functions (`OnGlobal`, `OnGlobalRemove`, `OnXdgOutput`,
 * `OnWlOutput`, `OnLayerSurface`) specify the handlers; the class
 * `StatusBar` implements them in place and is proved against them.
 */
module Registry {
  import opened Types
  import opened Gpu
  import opened Wayland
  import opened Display

  /** The bound `wl_seat`; its keyboard is only created by the seat handler. */
  datatype Seat = Seat(wlSeat: ObjectId, keyboard: Option<ObjectId>)

  /**
   * The registry's fields. `nextId` stands for the client's proxy-id
   * allocator: every bind or create request takes the next id.
   */
  datatype RegistryState = RegistryState(
    outputManager: Option<ObjectId>,
    compositor: Option<ObjectId>,
    layerShell: Option<ObjectId>,
    outputs: seq<Output>,
    seat: Option<Seat>,
    nextId: ObjectId)

  /** A state after a handler ran, with the requests the handler issued. */
  datatype Transition = Transition(state: RegistryState, effects: seq<Effect>)

  /** `StatusBar::new`: nothing bound, no displays. */
  function Initial(): RegistryState {
    RegistryState(None, None, None, [], None, 0)
  }

  /** Display entries can only be built once all three factories are bound. */
  predicate CanCreateOutputs(st: RegistryState) {
    st.compositor.Some? && st.layerShell.Some? && st.outputManager.Some?
  }

  /** What a handler searches the entry list for. */
  datatype Key =
    | ByName(name: u32)
    | ByXdgOutput(xdgOutput: ObjectId)
    | ByOutput(output: ObjectId)
    | ByLayerSurface(layerSurface: ObjectId)

  predicate Matches(o: Output, k: Key) {
    match k
    case ByName(name) => o.info.id == name
    case ByXdgOutput(x) => o.xdgOutput == x
    case ByOutput(x) => o.output == x
    case ByLayerSurface(x) => o.layerSurface == x
  }

  /** Position of the first entry matching `k` (`iter().find` / `position`). */
  function FirstMatch(outputs: seq<Output>, k: Key): (r: Option<nat>)
    ensures r.Some? ==> r.value < |outputs| && Matches(outputs[r.value], k)
    ensures r.Some? ==> forall j :: 0 <= j < r.value ==> !Matches(outputs[j], k)
    ensures r.None? <==> forall j :: 0 <= j < |outputs| ==> !Matches(outputs[j], k)
  {
    FindIndex(outputs, (o: Output) => Matches(o, k))
  }

  /**
   * The linear search the handlers run over the entries; it finds exactly
   * the entry `FirstMatch` names.
   */
  method FindEntry(outputs: seq<Output>, k: Key) returns (r: Option<nat>)
    ensures r == FirstMatch(outputs, k)
  {
    var i := 0;
    while i < |outputs|
      invariant 0 <= i <= |outputs|
      invariant forall j :: 0 <= j < i ==> !Matches(outputs[j], k)
    {
      if Matches(outputs[i], k) {
        return Some(i);
      }
      i := i + 1;
    }
    return None;
  }

  /**
   * The requests the `wl_output` arm issues before it builds the renderer,
   * using the four ids reserved from `st.nextId` on.
   */
  function AnnounceRequests(st: RegistryState, name: u32, version: u32): seq<Effect>
    requires CanCreateOutputs(st)
  {
    var output := st.nextId;
    var surface := output + 1;
    var layerSurface := output + 2;
    var xdgOutput := output + 3;
    [
      Bind(name, WL_OUTPUT, version, output),
      CreateSurface(st.compositor.value, surface),
      GetLayerSurface(st.layerShell.value, layerSurface, surface, output, Top, NAMESPACE),
      SetSize(layerSurface, 1, 1),
      SetAnchor(layerSurface, ANCHOR_TOP),
      Commit(surface),
      GetXdgOutput(st.outputManager.value, xdgOutput, output),
      CreateGpuSurface(surface)
    ]
  }

  /**
   * The renderer step of the `wl_output` arm, for the display whose objects
   * were reserved from `output` on: only a ready renderer yields an entry,
   * appended at the end; a panic while building it is recorded.
   */
  function AttachEntry(st: RegistryState, output: ObjectId, name: u32, gpu: GpuOracle): Transition {
    match NewSurface(gpu)
    case Ready(wgpu) =>
      var created := NewOutput(output, output + 3, output + 1, output + 2, name, wgpu);
      Transition(st.(outputs := st.outputs + [created.entry]), created.effects)
    case Failed(_) =>
      Transition(st, [])
    case Panicked(message) =>
      Transition(st, [Panic(message)])
  }

  /**
   * The `wl_output` arm when all three factories are bound: reserve four
   * objects and issue `AnnounceRequests`, then `AttachEntry`. What it
   * guarantees is `AnnounceOutputShape`.
   */
  function AnnounceOutput(st: RegistryState, name: u32, version: u32, gpu: GpuOracle): Transition
    requires CanCreateOutputs(st)
  {
    var attached := AttachEntry(st.(nextId := st.nextId + 4), st.nextId, name, gpu);
    Transition(attached.state, AnnounceRequests(st, name, version) + attached.effects)
  }

  /**
   * An output announcement reserves four ids, changes no handle, appends
   * exactly one entry (made from those ids and the announced name) when the
   * renderer is ready and none otherwise, and starts by binding the output.
   */
  lemma AnnounceOutputShape(st: RegistryState, name: u32, version: u32, gpu: GpuOracle)
    requires CanCreateOutputs(st)
    ensures var t := AnnounceOutput(st, name, version, gpu);
            && t.state.nextId == st.nextId + 4
            && t.state.(outputs := st.outputs, nextId := st.nextId) == st
            && (NewSurface(gpu).Ready? <==> |t.state.outputs| == |st.outputs| + 1)
            && (!NewSurface(gpu).Ready? <==> t.state.outputs == st.outputs)
            && |t.effects| >= 8 && t.effects[0] == Bind(name, WL_OUTPUT, version, st.nextId)
    ensures var t := AnnounceOutput(st, name, version, gpu);
            NewSurface(gpu).Ready? ==>
              && t.state.outputs[..|st.outputs|] == st.outputs
              && var e := t.state.outputs[|st.outputs|];
              && e.info == NewInfo(name) && e.wgpu == NewSurface(gpu).surface
              && e.output == st.nextId && e.surface == st.nextId + 1
              && e.layerSurface == st.nextId + 2 && e.xdgOutput == st.nextId + 3
  {
  }

  /**
   * `wl_registry.global`: a factory announcement binds and overwrites that
   * handle, a seat announcement binds a seat, an output announcement binds
   * the output and builds an entry when possible; any other interface is
   * ignored.
   */
  function OnGlobal(st: RegistryState, name: u32, iface: string, version: u32, gpu: GpuOracle): (t: Transition)
    ensures iface !in {WL_COMPOSITOR, XDG_OUTPUT_MANAGER, LAYER_SHELL, WL_SEAT, WL_OUTPUT} ==> t == Transition(st, [])
    ensures iface != WL_OUTPUT ==> t.state.outputs == st.outputs
    ensures iface == WL_COMPOSITOR ==> t.state == st.(compositor := Some(st.nextId), nextId := st.nextId + 1)
    ensures iface == XDG_OUTPUT_MANAGER ==> t.state == st.(outputManager := Some(st.nextId), nextId := st.nextId + 1)
    ensures iface == LAYER_SHELL ==> t.state == st.(layerShell := Some(st.nextId), nextId := st.nextId + 1)
    ensures iface == WL_SEAT ==> t.state == st.(seat := Some(Seat(st.nextId, None)), nextId := st.nextId + 1)
    ensures iface == WL_OUTPUT ==> t.state.(outputs := st.outputs, nextId := st.nextId) == st
    ensures iface in {WL_COMPOSITOR, XDG_OUTPUT_MANAGER, LAYER_SHELL, WL_SEAT, WL_OUTPUT}
      ==> |t.effects| > 0 && t.effects[0] == Bind(name, iface, version, st.nextId)
    ensures st.nextId <= t.state.nextId
  {
    var id := st.nextId;
    var bound := st.(nextId := id + 1);
    var bind := [Bind(name, iface, version, id)];
    if iface == WL_COMPOSITOR then
      Transition(bound.(compositor := Some(id)), bind)
    else if iface == XDG_OUTPUT_MANAGER then
      Transition(bound.(outputManager := Some(id)), bind)
    else if iface == LAYER_SHELL then
      Transition(bound.(layerShell := Some(id)), bind)
    else if iface == WL_SEAT then
      Transition(bound.(seat := Some(Seat(id, None))), bind)
    else if iface == WL_OUTPUT then
      if CanCreateOutputs(st) then
        AnnounceOutputShape(st, name, version, gpu);
        AnnounceOutput(st, name, version, gpu)
      else Transition(bound, bind)
    else
      Transition(st, [])
  }

  /**
   * `wl_registry.global_remove`: the first entry announced under `name` is
   * swap-removed; when there is none nothing changes.
   */
  function OnGlobalRemove(st: RegistryState, name: u32): (r: RegistryState)
    ensures r.(outputs := st.outputs) == st
    ensures (forall j :: 0 <= j < |st.outputs| ==> st.outputs[j].info.id != name) ==> r == st
    ensures FirstMatch(st.outputs, ByName(name)).Some? ==>
      var i := FirstMatch(st.outputs, ByName(name)).value;
      && |r.outputs| == |st.outputs| - 1
      && (i < |r.outputs| ==> r.outputs[i] == st.outputs[|st.outputs| - 1])
      && (forall j :: 0 <= j < |r.outputs| && j != i ==> r.outputs[j] == st.outputs[j])
  {
    match FirstMatch(st.outputs, ByName(name))
    case None => st
    case Some(i) => st.(outputs := SwapRemove(st.outputs, i))
  }

  /** Dispatch of a `wl_registry` event. */
  function OnRegistry(st: RegistryState, ev: RegistryEvent, gpu: GpuOracle): Transition {
    match ev
    case Global(name, iface, version) => OnGlobal(st, name, iface, version, gpu)
    case GlobalRemove(name) => Transition(OnGlobalRemove(st, name), [])
  }

  /**
   * A `zxdg_output_v1` event: only the first entry holding that xdg output
   * is updated; no entry holding it means no change.
   */
  function OnXdgOutput(st: RegistryState, origin: ObjectId, ev: XdgOutputEvent): (r: RegistryState)
    ensures r.(outputs := st.outputs) == st && |r.outputs| == |st.outputs|
    ensures forall k :: 0 <= k < |r.outputs| ==> SameObjects(r.outputs[k], st.outputs[k])
    ensures FirstMatch(st.outputs, ByXdgOutput(origin)).None? ==> r == st
    ensures FirstMatch(st.outputs, ByXdgOutput(origin)).Some? ==>
      var i := FirstMatch(st.outputs, ByXdgOutput(origin)).value;
      && r.outputs[i] == XdgOutputUpdate(st.outputs[i], ev)
      && (forall j :: 0 <= j < |r.outputs| && j != i ==> r.outputs[j] == st.outputs[j])
  {
    match FirstMatch(st.outputs, ByXdgOutput(origin))
    case None => st
    case Some(i) => st.(outputs := st.outputs[i := XdgOutputUpdate(st.outputs[i], ev)])
  }

  /**
   * A `wl_output` event: routed to the first entry holding that output;
   * no entry holding it means no change and no request.
   */
  function OnWlOutput(st: RegistryState, origin: ObjectId, ev: WlOutputEvent): (t: Transition)
    ensures t.state.(outputs := st.outputs) == st && |t.state.outputs| == |st.outputs|
    ensures forall k :: 0 <= k < |t.state.outputs| ==> SameObjects(t.state.outputs[k], st.outputs[k])
    ensures FirstMatch(st.outputs, ByOutput(origin)).None? ==> t == Transition(st, [])
    ensures FirstMatch(st.outputs, ByOutput(origin)).Some? ==>
      var i := FirstMatch(st.outputs, ByOutput(origin)).value;
      && Updated(t.state.outputs[i], t.effects) == WlOutputUpdate(st.outputs[i], ev)
      && (forall j :: 0 <= j < |t.state.outputs| && j != i ==> t.state.outputs[j] == st.outputs[j])
  {
    match FirstMatch(st.outputs, ByOutput(origin))
    case None => Transition(st, [])
    case Some(i) =>
      var u := WlOutputUpdate(st.outputs[i], ev);
      Transition(st.(outputs := st.outputs[i := u.entry]), u.effects)
  }

  /**
   * A `zwlr_layer_surface_v1` event: a `configure` on a known layer surface
   * runs the configure path on that entry; `closed`, or an unknown layer
   * surface, changes nothing. Its guarantees are `LayerSurfaceIgnored`,
   * `LayerSurfaceConfigures` and `LayerSurfaceKeepsObjects`.
   */
  function OnLayerSurface(st: RegistryState, origin: ObjectId, ev: LayerSurfaceEvent, acquired: bool): Transition {
    match FirstMatch(st.outputs, ByLayerSurface(origin))
    case None => Transition(st, [])
    case Some(i) =>
      match ev
      case Closed => Transition(st, [])
      case Configure(serial, width, height) =>
        var u := ConfigureUpdate(st.outputs[i], serial, width, height, acquired);
        Transition(st.(outputs := st.outputs[i := u.entry]), u.effects)
  }

  /** `closed`, or any event from an unknown layer surface, changes nothing and issues nothing. */
  lemma LayerSurfaceIgnored(st: RegistryState, origin: ObjectId, ev: LayerSurfaceEvent, acquired: bool)
    requires FirstMatch(st.outputs, ByLayerSurface(origin)).None? || ev.Closed?
    ensures OnLayerSurface(st, origin, ev, acquired) == Transition(st, [])
  {
    match FirstMatch(st.outputs, ByLayerSurface(origin))
    case None =>
    case Some(i) =>
  }

  /**
   * A configure reaches only the first entry holding that layer surface, and
   * its requests are that entry's configure path.
   */
  lemma LayerSurfaceConfigures(st: RegistryState, origin: ObjectId, ev: LayerSurfaceEvent, acquired: bool)
    requires FirstMatch(st.outputs, ByLayerSurface(origin)).Some? && ev.Configure?
    ensures var t := OnLayerSurface(st, origin, ev, acquired);
            var i := FirstMatch(st.outputs, ByLayerSurface(origin)).value;
            var u := ConfigureUpdate(st.outputs[i], ev.serial, ev.width, ev.height, acquired);
            && |t.state.outputs| == |st.outputs|
            && t.state.outputs[i] == u.entry && t.effects == u.effects
            && (forall j :: 0 <= j < |t.state.outputs| && j != i ==> t.state.outputs[j] == st.outputs[j])
  {
    var i := FirstMatch(st.outputs, ByLayerSurface(origin)).value;
    var u := ConfigureUpdate(st.outputs[i], ev.serial, ev.width, ev.height, acquired);
    assert OnLayerSurface(st, origin, ev, acquired) == Transition(st.(outputs := st.outputs[i := u.entry]), u.effects);
  }

  /** A layer-surface event keeps the handles, the number of entries and every entry's objects. */
  lemma LayerSurfaceKeepsObjects(st: RegistryState, origin: ObjectId, ev: LayerSurfaceEvent, acquired: bool)
    ensures var r := OnLayerSurface(st, origin, ev, acquired).state;
            && r.(outputs := st.outputs) == st && |r.outputs| == |st.outputs|
            && forall k :: 0 <= k < |r.outputs| ==> SameObjects(r.outputs[k], st.outputs[k])
  {
    if FirstMatch(st.outputs, ByLayerSurface(origin)).None? || ev.Closed? {
      LayerSurfaceIgnored(st, origin, ev, acquired);
    } else {
      LayerSurfaceConfigures(st, origin, ev, acquired);
    }
  }

  /** One dispatched event, with the oracle outcomes its handler depends on. */
  datatype Input =
    | RegistryInput(event: RegistryEvent, gpu: GpuOracle)
    | XdgOutputInput(xdgOrigin: ObjectId, xdgEvent: XdgOutputEvent)
    | WlOutputInput(outputOrigin: ObjectId, outputEvent: WlOutputEvent)
    | LayerSurfaceInput(layerOrigin: ObjectId, layerEvent: LayerSurfaceEvent, acquired: bool)

  function Step(st: RegistryState, input: Input): Transition {
    match input
    case RegistryInput(ev, gpu) => OnRegistry(st, ev, gpu)
    case XdgOutputInput(origin, ev) => Transition(OnXdgOutput(st, origin, ev), [])
    case WlOutputInput(origin, ev) => OnWlOutput(st, origin, ev)
    case LayerSurfaceInput(origin, ev, acquired) => OnLayerSurface(st, origin, ev, acquired)
  }

  /** Events dispatched one after another, each handler running to completion. */
  function Run(st: RegistryState, inputs: seq<Input>): Transition
    decreases |inputs|
  {
    if inputs == [] then Transition(st, [])
    else
      var first := Step(st, inputs[0]);
      var rest := Run(first.state, inputs[1..]);
      Transition(rest.state, first.effects + rest.effects)
  }

  /** The protocol objects an entry owns. */
  function Objects(o: Output): set<ObjectId> {
    {o.output, o.xdgOutput, o.surface, o.layerSurface}
  }

  /**
   * Well-formedness: every object an entry owns was reserved before
   * `nextId`, and no object is owned by two entries.
   */
  predicate Wf(st: RegistryState) {
    && (forall i :: 0 <= i < |st.outputs| ==> forall x :: x in Objects(st.outputs[i]) ==> x < st.nextId)
    && (forall i, j :: 0 <= i < |st.outputs| && 0 <= j < |st.outputs| && i != j ==>
          Objects(st.outputs[i]) !! Objects(st.outputs[j]))
  }

  /** The input announces a display under registry name `name`. */
  predicate Announces(input: Input, name: u32) {
    input.RegistryInput? && input.event.Global? && input.event.iface == WL_OUTPUT && input.event.name == name
  }

  /**
   * Where each entry after a step comes from: an entry that was already
   * there (same objects and name), or the entry the step's own output
   * announcement created, whose objects are all freshly reserved.
   */
  predicate Provenance(st: RegistryState, input: Input, e: Output) {
    || (exists j :: 0 <= j < |st.outputs| && SameObjects(e, st.outputs[j]))
    || (Announces(input, e.info.id) && forall x :: x in Objects(e) ==> st.nextId <= x)
  }

  /** Entries kept in place by a step were there before it. */
  lemma KeptEntriesProvenance(st: RegistryState, input: Input, outputs: seq<Output>)
    requires |st.outputs| <= |outputs| && outputs[..|st.outputs|] == st.outputs
    ensures forall k :: 0 <= k < |st.outputs| ==> Provenance(st, input, outputs[k])
  {
    forall k | 0 <= k < |st.outputs|
      ensures Provenance(st, input, outputs[k])
    {
      assert outputs[k] == outputs[..|st.outputs|][k];
      assert SameObjects(outputs[k], st.outputs[k]);
    }
  }

  lemma GlobalProvenance(st: RegistryState, name: u32, iface: string, version: u32, gpu: GpuOracle)
    ensures var r := OnGlobal(st, name, iface, version, gpu).state;
            forall k :: 0 <= k < |r.outputs| ==> Provenance(st, RegistryInput(Global(name, iface, version), gpu), r.outputs[k])
  {
    var input := RegistryInput(Global(name, iface, version), gpu);
    var r := OnGlobal(st, name, iface, version, gpu).state;
    var n := |st.outputs|;
    if iface == WL_OUTPUT && CanCreateOutputs(st) && NewSurface(gpu).Ready? {
      AnnounceOutputShape(st, name, version, gpu);
      KeptEntriesProvenance(st, input, r.outputs);
      assert Announces(input, r.outputs[n].info.id);
    } else {
      assert r.outputs == st.outputs;
      assert r.outputs[..n] == st.outputs;
      KeptEntriesProvenance(st, input, r.outputs);
    }
  }

  lemma RemoveProvenance(st: RegistryState, name: u32)
    ensures var r := OnGlobalRemove(st, name);
            forall k :: 0 <= k < |r.outputs| ==> exists j :: 0 <= j < |st.outputs| && SameObjects(r.outputs[k], st.outputs[j])
  {
    var r := OnGlobalRemove(st, name);
    forall k | 0 <= k < |r.outputs|
      ensures exists j :: 0 <= j < |st.outputs| && SameObjects(r.outputs[k], st.outputs[j])
    {
      match FirstMatch(st.outputs, ByName(name))
      case None =>
        assert SameObjects(r.outputs[k], st.outputs[k]);
      case Some(i) =>
        if k == i {
          assert SameObjects(r.outputs[k], st.outputs[|st.outputs| - 1]);
        } else {
          assert SameObjects(r.outputs[k], st.outputs[k]);
        }
    }
  }

  /**
   * Every entry after a step was there before (same objects, same name), or
   * is the one entry that step's output announcement created from freshly
   * allocated objects; allocation never goes back.
   */
  lemma StepProvenance(st: RegistryState, input: Input)
    ensures st.nextId <= Step(st, input).state.nextId
    ensures var r := Step(st, input).state;
            forall k :: 0 <= k < |r.outputs| ==> Provenance(st, input, r.outputs[k])
  {
    var r := Step(st, input).state;
    match input
    case RegistryInput(ev, gpu) =>
      match ev {
        case Global(name, iface, version) =>
          GlobalProvenance(st, name, iface, version, gpu);
        case GlobalRemove(name) =>
          RemoveProvenance(st, name);
      }
    case LayerSurfaceInput(origin, ev, acquired) =>
      LayerSurfaceKeepsObjects(st, origin, ev, acquired);
      forall k | 0 <= k < |r.outputs|
        ensures Provenance(st, input, r.outputs[k])
      {
        assert SameObjects(r.outputs[k], st.outputs[k]);
      }
    case _ =>
      forall k | 0 <= k < |r.outputs|
        ensures Provenance(st, input, r.outputs[k])
      {
        assert SameObjects(r.outputs[k], st.outputs[k]);
      }
  }

  /** Two lists whose entries pairwise own the same objects are equally well-formed. */
  lemma WfSameObjects(st: RegistryState, r: RegistryState)
    requires Wf(st) && st.nextId <= r.nextId && |r.outputs| == |st.outputs|
    requires forall k :: 0 <= k < |r.outputs| ==> SameObjects(r.outputs[k], st.outputs[k])
    ensures Wf(r)
  {
    forall k | 0 <= k < |r.outputs|
      ensures Objects(r.outputs[k]) == Objects(st.outputs[k])
    {
      assert SameObjects(r.outputs[k], st.outputs[k]);
    }
  }

  /** Appending an entry made only of ids reserved after the old `nextId` keeps well-formedness. */
  lemma AppendPreservesWf(st: RegistryState, r: RegistryState, e: Output)
    requires Wf(st) && st.nextId <= r.nextId && r.outputs == st.outputs + [e]
    requires forall x :: x in Objects(e) ==> st.nextId <= x < r.nextId
    ensures Wf(r)
  {
    var n := |st.outputs|;
    forall k | 0 <= k < n
      ensures r.outputs[k] == st.outputs[k] && Objects(r.outputs[k]) !! Objects(e)
    {
    }
  }

  lemma GlobalPreservesWf(st: RegistryState, name: u32, iface: string, version: u32, gpu: GpuOracle)
    requires Wf(st)
    ensures Wf(OnGlobal(st, name, iface, version, gpu).state)
  {
    var r := OnGlobal(st, name, iface, version, gpu).state;
    var n := |st.outputs|;
    if iface == WL_OUTPUT && CanCreateOutputs(st) && NewSurface(gpu).Ready? {
      AnnounceOutputShape(st, name, version, gpu);
      var e := r.outputs[n];
      assert r.outputs == r.outputs[..n] + [e];
      AppendPreservesWf(st, r, e);
    } else {
      assert r.outputs == st.outputs;
    }
  }

  lemma RemovePreservesWf(st: RegistryState, name: u32)
    requires Wf(st)
    ensures Wf(OnGlobalRemove(st, name))
  {
    var r := OnGlobalRemove(st, name);
    match FirstMatch(st.outputs, ByName(name))
    case None =>
    case Some(i) =>
      // Entry k of the result is the old entry k, except at i, which holds the old last entry.
      var last := |st.outputs| - 1;
      forall k | 0 <= k < |r.outputs|
        ensures forall x :: x in Objects(r.outputs[k]) ==> x < r.nextId
      {
        var from := if k == i then last else k;
        assert r.outputs[k] == st.outputs[from];
      }
      forall a, b | 0 <= a < |r.outputs| && 0 <= b < |r.outputs| && a != b
        ensures Objects(r.outputs[a]) !! Objects(r.outputs[b])
      {
        var fromA := if a == i then last else a;
        var fromB := if b == i then last else b;
        assert r.outputs[a] == st.outputs[fromA] && r.outputs[b] == st.outputs[fromB];
      }
  }

  /** A removal takes out exactly the first matching entry; the others stay, as a multiset. */
  lemma RemoveTakesOutMatch(st: RegistryState, name: u32)
    requires FirstMatch(st.outputs, ByName(name)).Some?
    ensures var i := FirstMatch(st.outputs, ByName(name)).value;
            multiset(OnGlobalRemove(st, name).outputs) + multiset{st.outputs[i]} == multiset(st.outputs)
  {
    SwapRemoveMultiset(st.outputs, FirstMatch(st.outputs, ByName(name)).value);
  }

  /**
   * Removing a display releases what its entry owned: under well-formedness
   * none of the removed entry's objects is owned by a remaining entry.
   */
  lemma RemoveReleasesObjects(st: RegistryState, name: u32)
    requires Wf(st) && FirstMatch(st.outputs, ByName(name)).Some?
    ensures var gone := st.outputs[FirstMatch(st.outputs, ByName(name)).value];
            var r := OnGlobalRemove(st, name);
            forall k :: 0 <= k < |r.outputs| ==> Objects(r.outputs[k]) !! Objects(gone)
  {
    var i := FirstMatch(st.outputs, ByName(name)).value;
    var r := OnGlobalRemove(st, name);
    var last := |st.outputs| - 1;
    forall k | 0 <= k < |r.outputs|
      ensures Objects(r.outputs[k]) !! Objects(st.outputs[i])
    {
      if k == i {
        assert r.outputs[k] == st.outputs[last];
      } else {
        assert r.outputs[k] == st.outputs[k];
      }
    }
  }

  /** Well-formedness is an invariant of every handler. */
  lemma StepPreservesWf(st: RegistryState, input: Input)
    requires Wf(st)
    ensures Wf(Step(st, input).state)
  {
    var r := Step(st, input).state;
    match input
    case RegistryInput(ev, gpu) =>
      match ev {
        case Global(name, iface, version) => GlobalPreservesWf(st, name, iface, version, gpu);
        case GlobalRemove(name) => RemovePreservesWf(st, name);
      }
    case LayerSurfaceInput(origin, ev, acquired) =>
      LayerSurfaceKeepsObjects(st, origin, ev, acquired);
      WfSameObjects(st, r);
    case _ =>
      WfSameObjects(st, r);
  }

  /** Under well-formedness, an event's origin object identifies one entry: the first match is the only one. */
  lemma RoutingUnique(st: RegistryState, k: Key, i: nat)
    requires Wf(st) && !k.ByName?
    requires i < |st.outputs| && Matches(st.outputs[i], k)
    ensures FirstMatch(st.outputs, k) == Some(i)
  {
    var first := FirstMatch(st.outputs, k).value;
    if first != i {
      assert false;
    }
  }

  lemma {:induction false} RunPreservesWf(st: RegistryState, inputs: seq<Input>)
    requires Wf(st)
    ensures Wf(Run(st, inputs).state)
    decreases |inputs|
  {
    if inputs != [] {
      StepPreservesWf(st, inputs[0]);
      RunPreservesWf(Step(st, inputs[0]).state, inputs[1..]);
    }
  }

  /** An output announcement adds an entry exactly when the factories are bound and the renderer is built. */
  lemma OutputAnnouncementGate(st: RegistryState, name: u32, version: u32, gpu: GpuOracle)
    ensures var r := OnGlobal(st, name, WL_OUTPUT, version, gpu).state;
            && (|r.outputs| == |st.outputs| + 1 <==> CanCreateOutputs(st) && NewSurface(gpu).Ready?)
            && (|r.outputs| != |st.outputs| + 1 ==> r.outputs == st.outputs)
  {
  }

  /**
   * The entry an output announcement creates is appended after the existing
   * ones, carries the announced name, an empty geometry cache and a 1x1
   * swapchain.
   */
  lemma NewEntryAppended(st: RegistryState, name: u32, version: u32, gpu: GpuOracle)
    requires CanCreateOutputs(st) && NewSurface(gpu).Ready?
    ensures var r := OnGlobal(st, name, WL_OUTPUT, version, gpu).state;
            && |r.outputs| == |st.outputs| + 1
            && r.outputs[..|st.outputs|] == st.outputs
            && r.outputs[|st.outputs|].info.id == name
            && r.outputs[|st.outputs|].info == OutputInfo("", 0, 0, 1, name)
            && r.outputs[|st.outputs|].wgpu.config.width == 1
            && r.outputs[|st.outputs|].wgpu.config.height == 1
  {
  }

  /** With the factories bound, an output announcement is `AnnounceOutput`. */
  lemma OutputArm(st: RegistryState, name: u32, version: u32, gpu: GpuOracle)
    requires CanCreateOutputs(st)
    ensures OnGlobal(st, name, WL_OUTPUT, version, gpu).effects
         == AnnounceRequests(st, name, version) + AttachEntry(st.(nextId := st.nextId + 4), st.nextId, name, gpu).effects
  {
  }

  /** While building an entry the layer surface is sized 1x1 before the surface is committed. */
  lemma SizedBeforeCommit(st: RegistryState, name: u32, version: u32, gpu: GpuOracle)
    requires CanCreateOutputs(st)
    ensures Before(OnGlobal(st, name, WL_OUTPUT, version, gpu).effects, SetSize(st.nextId + 2, 1, 1), Commit(st.nextId + 1))
  {
    var effects := OnGlobal(st, name, WL_OUTPUT, version, gpu).effects;
    OutputArm(st, name, version, gpu);
    assert effects[3] == SetSize(st.nextId + 2, 1, 1) && effects[5] == Commit(st.nextId + 1);
  }

  /** The xdg output is requested before the renderer is built on the surface. */
  lemma XdgOutputBeforeRenderer(st: RegistryState, name: u32, version: u32, gpu: GpuOracle)
    requires CanCreateOutputs(st)
    ensures Before(OnGlobal(st, name, WL_OUTPUT, version, gpu).effects,
                   GetXdgOutput(st.outputManager.value, st.nextId + 3, st.nextId), CreateGpuSurface(st.nextId + 1))
  {
    var effects := OnGlobal(st, name, WL_OUTPUT, version, gpu).effects;
    OutputArm(st, name, version, gpu);
    assert effects[6] == GetXdgOutput(st.outputManager.value, st.nextId + 3, st.nextId);
    assert effects[7] == CreateGpuSurface(st.nextId + 1);
  }

  /** The overlay settings of `Output::new` follow the renderer's construction. */
  lemma OverlayAfterRenderer(st: RegistryState, name: u32, version: u32, gpu: GpuOracle)
    requires CanCreateOutputs(st) && NewSurface(gpu).Ready?
    ensures Before(OnGlobal(st, name, WL_OUTPUT, version, gpu).effects, CreateGpuSurface(st.nextId + 1), SetLayer(st.nextId + 2, Overlay))
  {
    var effects := OnGlobal(st, name, WL_OUTPUT, version, gpu).effects;
    OutputArm(st, name, version, gpu);
    assert effects[7] == CreateGpuSurface(st.nextId + 1) && effects[10] == SetLayer(st.nextId + 2, Overlay);
  }

  /** No step ever creates an entry under a name other than the one it announces. */
  lemma {:induction false} NoLateCreation(st: RegistryState, inputs: seq<Input>, name: u32)
    requires forall k :: 0 <= k < |st.outputs| ==> st.outputs[k].info.id != name
    requires forall k :: 0 <= k < |inputs| ==> !Announces(inputs[k], name)
    ensures var r := Run(st, inputs).state;
            forall k :: 0 <= k < |r.outputs| ==> r.outputs[k].info.id != name
    decreases |inputs|
  {
    if inputs != [] {
      var next := Step(st, inputs[0]).state;
      StepProvenance(st, inputs[0]);
      forall k | 0 <= k < |next.outputs|
        ensures next.outputs[k].info.id != name
      {
        assert Provenance(st, inputs[0], next.outputs[k]);
      }
      NoLateCreation(next, inputs[1..], name);
      assert Run(st, inputs).state == Run(next, inputs[1..]).state;
    }
  }

  /**
   * A display announced before the three factories are bound never gets an
   * entry, whatever is announced afterwards, unless its name is announced
   * again.
   */
  lemma GatedAnnouncementNeverCreates(st: RegistryState, name: u32, version: u32, gpu: GpuOracle, later: seq<Input>)
    requires !CanCreateOutputs(st)
    requires forall k :: 0 <= k < |st.outputs| ==> st.outputs[k].info.id != name
    requires forall k :: 0 <= k < |later| ==> !Announces(later[k], name)
    ensures var r := Run(st, [RegistryInput(Global(name, WL_OUTPUT, version), gpu)] + later).state;
            forall k :: 0 <= k < |r.outputs| ==> r.outputs[k].info.id != name
  {
    var inputs := [RegistryInput(Global(name, WL_OUTPUT, version), gpu)] + later;
    assert inputs[1..] == later;
    var next := Step(st, inputs[0]).state;
    assert next.outputs == st.outputs;
    NoLateCreation(next, later, name);
    assert Run(st, inputs).state == Run(next, later).state;
  }

  /** An object no entry owns, once allocated, is never owned by an entry later. */
  lemma {:induction false} UnownedStaysUnowned(st: RegistryState, inputs: seq<Input>, x: ObjectId)
    requires x < st.nextId
    requires forall k :: 0 <= k < |st.outputs| ==> x !in Objects(st.outputs[k])
    ensures var r := Run(st, inputs).state;
            forall k :: 0 <= k < |r.outputs| ==> x !in Objects(r.outputs[k])
    decreases |inputs|
  {
    if inputs != [] {
      var next := Step(st, inputs[0]).state;
      StepProvenance(st, inputs[0]);
      forall k | 0 <= k < |next.outputs|
        ensures x !in Objects(next.outputs[k])
      {
        assert Provenance(st, inputs[0], next.outputs[k]);
        if exists j :: 0 <= j < |st.outputs| && SameObjects(next.outputs[k], st.outputs[j]) {
          var j :| 0 <= j < |st.outputs| && SameObjects(next.outputs[k], st.outputs[j]);
          assert Objects(next.outputs[k]) == Objects(st.outputs[j]);
        }
      }
      UnownedStaysUnowned(next, inputs[1..], x);
      assert Run(st, inputs).state == Run(next, inputs[1..]).state;
    }
  }

  /**
   * The output bound for a display announced too early is never routed to:
   * every later event from it is ignored.
   */
  lemma DroppedOutputIgnored(st: RegistryState, name: u32, version: u32, gpu: GpuOracle,
                             later: seq<Input>, ev: WlOutputEvent)
    requires Wf(st) && !CanCreateOutputs(st)
    ensures var r := Run(st, [RegistryInput(Global(name, WL_OUTPUT, version), gpu)] + later).state;
            && FirstMatch(r.outputs, ByOutput(st.nextId)).None?
            && OnWlOutput(r, st.nextId, ev) == Transition(r, [])
  {
    var inputs := [RegistryInput(Global(name, WL_OUTPUT, version), gpu)] + later;
    assert inputs[1..] == later;
    var next := Step(st, inputs[0]).state;
    assert next.outputs == st.outputs && next.nextId == st.nextId + 1;
    UnownedStaysUnowned(next, later, st.nextId);
    var r := Run(st, inputs).state;
    assert r == Run(next, later).state;
    forall k | 0 <= k < |r.outputs|
      ensures !Matches(r.outputs[k], ByOutput(st.nextId))
    {
      assert st.nextId !in Objects(r.outputs[k]);
    }
  }
}
