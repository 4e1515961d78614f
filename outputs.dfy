/**
 * The output registry of Xwayback as values: the `xway_output` record, the
 * Wayland events that reach it, and the effect of each event on the list of
 * records. The class in module Discovery performs these updates in place and
 * is proved against the functions here.
 *
 * A record's address (the `data` pointer every listener receives) is modelled
 * by `handle`, the number of records created before it. New records go to the
 * head of the list, so the list is newest first and the record at position
 * `i` has handle `|outputs| - 1 - i`.
 */
module Outputs {

  import opened Wrappers
  import opened CInts

  const WL_OUTPUT_INTERFACE: string := "wl_output"
  const XDG_OUTPUT_MANAGER_INTERFACE: string := "zxdg_output_manager_v1"

  /** `struct xway_output`; `refreshMhz` is the integer millihertz behind the float `refresh`. */
  datatype Output = Output(
    handle: nat,
    wlName: u32,
    xdgBound: bool,
    name: Option<string>,
    description: Option<string>,
    make: Option<string>,
    model: Option<string>,
    width: u32,
    height: u32,
    x: u32,
    y: u32,
    physicalWidth: i32,
    physicalHeight: i32,
    subpixel: i32,
    transform: i32,
    scale: i32,
    refreshMhz: i32)

  /** A freshly `calloc`ed record for global `wlName`. */
  function NewOutput(handle: nat, wlName: u32): (o: Output)
    ensures o.handle == handle && o.wlName == wlName && !o.xdgBound
    ensures o.name.None? && o.description.None? && o.make.None? && o.model.None?
    ensures o.width == 0 && o.height == 0 && o.x == 0 && o.y == 0 && o.scale == 0
    ensures o.physicalWidth == 0 && o.physicalHeight == 0 && o.subpixel == 0 && o.transform == 0 && o.refreshMhz == 0
  {
    Output(handle, wlName, false, None, None, None, None, 0, 0, 0, 0, 0, 0, 0, 0, 0, 0)
  }

  /**
   * Events delivered by the compositor: registry globals, `wl_output` events
   * and `zxdg_output_v1` events; `target` is the handle of the record whose
   * listener receives the event.
   */
  datatype Event =
    | Global(globalName: u32, iface: string, version: u32)
    | Geometry(target: nat, x: i32, y: i32, widthMm: i32, heightMm: i32, subpixel: i32,
               make: Option<string>, model: Option<string>, transform: i32)
    | Mode(target: nat, flags: u32, width: i32, height: i32, refresh: i32)
    | Scale(target: nat, factor: i32)
    | LogicalPosition(target: nat, x: i32, y: i32)
    | LogicalSize(target: nat, width: i32, height: i32)
    | Name(target: nat, outputName: string)
    | Description(target: nat, text: string)
    | Done(target: nat, fromXdg: bool)

  /** Events that arrive on a record's `zxdg_output_v1` object. */
  predicate IsXdgEvent(e: Event) {
    e.LogicalPosition? || e.LogicalSize? || e.Name? || e.Description? || (e.Done? && e.fromXdg)
  }

  /** The fields of a record that events may change. */
  datatype Field =
    | NameField | DescriptionField | MakeField | ModelField
    | WidthField | HeightField | XField | YField
    | PhysicalWidthField | PhysicalHeightField | SubpixelField | TransformField
    | ScaleField | RefreshField

  /** Which fields each handler assigns. */
  function Writes(e: Event): (fs: set<Field>)
    ensures fs == {} <==> e.Global? || e.Done?
    ensures WidthField in fs <==> HeightField in fs
    ensures WidthField in fs <==> e.Mode? || e.LogicalSize?
    ensures NameField in fs ==> IsXdgEvent(e)
  {
    match e
    case Global(_, _, _) => {}
    case Geometry(_, _, _, _, _, _, _, _, _) =>
      {PhysicalWidthField, PhysicalHeightField, MakeField, ModelField, SubpixelField, TransformField}
    case Mode(_, _, _, _, _) => {WidthField, HeightField, RefreshField}
    case Scale(_, _) => {ScaleField}
    case LogicalPosition(_, _, _) => {XField, YField}
    case LogicalSize(_, _, _) => {WidthField, HeightField}
    case Name(_, _) => {NameField}
    case Description(_, _) => {DescriptionField}
    case Done(_, _) => {}
  }

  /** `a` and `b` agree on identity and on every field outside `fs`. */
  predicate AgreeOutside(a: Output, b: Output, fs: set<Field>) {
    && a.handle == b.handle && a.wlName == b.wlName && a.xdgBound == b.xdgBound
    && (NameField !in fs ==> a.name == b.name)
    && (DescriptionField !in fs ==> a.description == b.description)
    && (MakeField !in fs ==> a.make == b.make)
    && (ModelField !in fs ==> a.model == b.model)
    && (WidthField !in fs ==> a.width == b.width)
    && (HeightField !in fs ==> a.height == b.height)
    && (XField !in fs ==> a.x == b.x)
    && (YField !in fs ==> a.y == b.y)
    && (PhysicalWidthField !in fs ==> a.physicalWidth == b.physicalWidth)
    && (PhysicalHeightField !in fs ==> a.physicalHeight == b.physicalHeight)
    && (SubpixelField !in fs ==> a.subpixel == b.subpixel)
    && (TransformField !in fs ==> a.transform == b.transform)
    && (ScaleField !in fs ==> a.scale == b.scale)
    && (RefreshField !in fs ==> a.refreshMhz == b.refreshMhz)
  }

  /** The effect of one listener callback on its record. */
  function Apply(o: Output, e: Event): (r: Output)
    ensures AgreeOutside(o, r, Writes(e))
  {
    match e
    case Global(_, _, _) => o
    case Geometry(_, _, _, widthMm, heightMm, subpixel, make, model, transform) =>
      o.(physicalHeight := heightMm, physicalWidth := widthMm, make := make, model := model,
         subpixel := subpixel, transform := transform)
    case Mode(_, _, width, height, refresh) =>
      o.(refreshMhz := refresh, width := ToU32(width), height := ToU32(height))
    case Scale(_, factor) => o.(scale := factor)
    case LogicalPosition(_, x, y) => o.(x := ToU32(x), y := ToU32(y))
    case LogicalSize(_, width, height) => o.(height := ToU32(height), width := ToU32(width))
    case Name(_, name) => o.(name := Some(name))
    case Description(_, text) => o.(description := Some(text))
    case Done(_, _) => o
  }

  /** The mode handler takes every mode, current or not: `flags` plays no part. */
  lemma ModeIgnoresFlags(o: Output, t: nat, f: u32, f': u32, w: i32, h: i32, r: i32)
    ensures Apply(o, Mode(t, f, w, h, r)) == Apply(o, Mode(t, f', w, h, r))
  {
  }

  /** A sequence of callbacks on one record, in delivery order. */
  function ApplyAll(o: Output, es: seq<Event>): Output
    decreases |es|
  {
    if es == [] then o else Apply(ApplyAll(o, es[..|es| - 1]), es[|es| - 1])
  }

  /** The events that set width and height: `mode` and `logical_size`. */
  predicate SetsSize(e: Event) {
    e.Mode? || e.LogicalSize?
  }

  /**
   * Width and height are last-writer-wins between `mode` and `logical_size`:
   * after a run of callbacks they are those of the last size-setting event.
   */
  lemma {:induction false} LastSizeWriterWins(o: Output, es: seq<Event>, p: nat)
    requires p < |es| && SetsSize(es[p])
    requires forall k :: p < k < |es| ==> !SetsSize(es[k])
    ensures ApplyAll(o, es).width == ToU32(es[p].width)
    ensures ApplyAll(o, es).height == ToU32(es[p].height)
    decreases |es|
  {
    if p < |es| - 1 {
      var init := es[..|es| - 1];
      assert !SetsSize(es[|es| - 1]);
      LastSizeWriterWins(o, init, p);
    }
  }

  /** Without a size-setting event, width and height are untouched. */
  lemma {:induction false} SizeKeptWithoutWriter(o: Output, es: seq<Event>)
    requires forall k :: 0 <= k < |es| ==> !SetsSize(es[k])
    ensures ApplyAll(o, es).width == o.width && ApplyAll(o, es).height == o.height
    decreases |es|
  {
    if es != [] {
      SizeKeptWithoutWriter(o, es[..|es| - 1]);
    }
  }

  /** The client state: whether the xdg-output manager is bound, the list, `first_output`. */
  datatype Registry = Registry(managerBound: bool, outputs: seq<Output>, first: Option<nat>)

  /** State right after `wl_list_init` and `first_output = NULL`. */
  const Initial: Registry := Registry(false, [], None)

  /** Position in the list of the record with handle `h`. */
  function Pos(r: Registry, h: nat): int {
    |r.outputs| - 1 - h
  }

  /**
   * Handles follow list positions, and `first_output` points at a record
   * exactly when the list is non-empty.
   */
  ghost predicate Valid(r: Registry) {
    && (forall i :: 0 <= i < |r.outputs| ==> r.outputs[i].handle == |r.outputs| - 1 - i)
    && (r.first.Some? <==> r.outputs != [])
    && (r.first.Some? ==> r.first.value < |r.outputs|)
  }

  predicate IsOutputGlobal(e: Event) {
    e.Global? && e.iface == WL_OUTPUT_INTERFACE
  }

  predicate IsManagerGlobal(e: Event) {
    e.Global? && e.iface == XDG_OUTPUT_MANAGER_INTERFACE
  }

  /** Whether the record that event `e` is addressed to exists and has the object `e` comes from. */
  predicate Delivered(r: Registry, e: Event)
    requires !e.Global?
  {
    e.target < |r.outputs| && (IsXdgEvent(e) ==> r.outputs[Pos(r, e.target)].xdgBound)
  }

  /**
   * One event. A `wl_output` global adds a record at the head, makes it
   * `first_output` if there is none yet, and gives it an xdg-output object when
   * the manager is already bound. The manager global only binds the manager.
   */
  function Step(r: Registry, e: Event): (s: Registry)
    ensures Valid(r) ==> Valid(s)
    ensures |r.outputs| <= |s.outputs| <= |r.outputs| + 1
    ensures r.managerBound ==> s.managerBound
  {
    if IsOutputGlobal(e) then
      var o := NewOutput(|r.outputs|, e.globalName).(xdgBound := r.managerBound);
      Registry(r.managerBound, [o] + r.outputs, if r.first.None? then Some(|r.outputs|) else r.first)
    else if IsManagerGlobal(e) then
      r.(managerBound := true)
    else if e.Global? || !Delivered(r, e) then
      r
    else
      var p := Pos(r, e.target);
      r.(outputs := r.outputs[p := Apply(r.outputs[p], e)])
  }

  /** Binding the manager leaves every existing record as it was. */
  lemma ManagerBindLeavesRecords(r: Registry, n: u32, v: u32)
    ensures Step(r, Global(n, XDG_OUTPUT_MANAGER_INTERFACE, v)).outputs == r.outputs
    ensures Step(r, Global(n, XDG_OUTPUT_MANAGER_INTERFACE, v)).managerBound
  {
  }

  /** Events in delivery order (the two round-trips). */
  function Replay(r: Registry, es: seq<Event>): (s: Registry)
    ensures Valid(r) ==> Valid(s)
    ensures |r.outputs| <= |s.outputs|
    decreases |es|
  {
    if es == [] then r else Step(Replay(r, es[..|es| - 1]), es[|es| - 1])
  }

  /** Number of `wl_output` globals among `es`. */
  function OutputGlobals(es: seq<Event>): nat
    decreases |es|
  {
    if es == [] then 0
    else OutputGlobals(es[..|es| - 1]) + (if IsOutputGlobal(es[|es| - 1]) then 1 else 0)
  }

  /** Whether the manager global occurs among `es`. */
  predicate ManagerAdvertised(es: seq<Event>) {
    exists q :: 0 <= q < |es| && IsManagerGlobal(es[q])
  }

  /** Every prefix of `es` advertises at most as many outputs as `es`. */
  lemma {:induction false} OutputGlobalsPrefix(es: seq<Event>, p: nat)
    requires p <= |es|
    ensures OutputGlobals(es[..p]) <= OutputGlobals(es)
    decreases |es|
  {
    if p < |es| {
      assert es[..p] == es[..|es| - 1][..p];
      OutputGlobalsPrefix(es[..|es| - 1], p);
    } else {
      assert es[..p] == es;
    }
  }

  /** The `h`-th `wl_output` global of `es` sits at position `p`. */
  predicate AdvertisedAt(es: seq<Event>, h: nat, p: nat) {
    p < |es| && IsOutputGlobal(es[p]) && OutputGlobals(es[..p]) == h
  }

  /**
   * The record with handle `h` was created by the `h`-th `wl_output` global,
   * carries its name, and has an xdg-output object exactly when the manager
   * was advertised before that global.
   */
  ghost predicate RecordFromGlobal(es: seq<Event>, s: Registry, h: nat)
    requires h < |s.outputs|
  {
    exists p: nat :: AdvertisedAt(es, h, p)
      && s.outputs[|s.outputs| - 1 - h].wlName == es[p].globalName
      && (s.outputs[|s.outputs| - 1 - h].xdgBound <==> ManagerAdvertised(es[..p]))
  }

  /** The manager is advertised by `init + [e]` when by `init` or by `e` itself. */
  lemma ManagerAdvertisedSnoc(init: seq<Event>, e: Event)
    ensures ManagerAdvertised(init + [e]) <==> ManagerAdvertised(init) || IsManagerGlobal(e)
  {
    var es := init + [e];
    if ManagerAdvertised(init) {
      var q :| 0 <= q < |init| && IsManagerGlobal(init[q]);
      assert es[q] == init[q];
    }
    if IsManagerGlobal(e) {
      assert es[|init|] == e;
    }
  }

  /** Replaying one more event is one more step. */
  lemma ReplaySnoc(init: seq<Event>, e: Event)
    ensures Replay(Initial, init + [e]) == Step(Replay(Initial, init), e)
  {
    assert (init + [e])[..|init|] == init;
  }

  /** One record per `wl_output` global; the manager is bound once it was advertised. */
  lemma {:induction false} ReplayCounts(es: seq<Event>)
    ensures |Replay(Initial, es).outputs| == OutputGlobals(es)
    ensures Replay(Initial, es).managerBound <==> ManagerAdvertised(es)
    decreases |es|
  {
    if es != [] {
      var init := es[..|es| - 1];
      var e := es[|es| - 1];
      assert es == init + [e];
      ReplayCounts(init);
      ManagerAdvertisedSnoc(init, e);
    }
  }

  /**
   * A record described by `init` is still described by `init + [e]` in any
   * later state that keeps its name and its xdg-output object.
   */
  lemma KnownRecordExtends(init: seq<Event>, e: Event, r: Registry, s: Registry, h: nat)
    requires h < |r.outputs| <= |s.outputs| && RecordFromGlobal(init, r, h)
    requires s.outputs[|s.outputs| - 1 - h].wlName == r.outputs[|r.outputs| - 1 - h].wlName
    requires s.outputs[|s.outputs| - 1 - h].xdgBound == r.outputs[|r.outputs| - 1 - h].xdgBound
    ensures RecordFromGlobal(init + [e], s, h)
  {
    var es := init + [e];
    var p: nat :| AdvertisedAt(init, h, p)
      && r.outputs[|r.outputs| - 1 - h].wlName == init[p].globalName
      && (r.outputs[|r.outputs| - 1 - h].xdgBound <==> ManagerAdvertised(init[..p]));
    assert es[..p] == init[..p];
    assert es[p] == init[p];
    assert AdvertisedAt(es, h, p);
  }

  /** The record a step adds is described by the global that step handles. */
  lemma NewRecordFromGlobal(init: seq<Event>, e: Event, r: Registry, s: Registry)
    requires s == Step(r, e) && |s.outputs| > |r.outputs|
    requires |r.outputs| == OutputGlobals(init) && (r.managerBound <==> ManagerAdvertised(init))
    ensures RecordFromGlobal(init + [e], s, |r.outputs|)
  {
    var es := init + [e];
    StepOutputGlobal(r, e);
    assert es[..|init|] == init;
    assert AdvertisedAt(es, |r.outputs|, |init|);
  }

  /** One step keeps every record described by the events so far, the new one included. */
  lemma DiscoversStep(init: seq<Event>, e: Event, r: Registry, s: Registry)
    requires Valid(r) && s == Step(r, e)
    requires |r.outputs| == OutputGlobals(init) && (r.managerBound <==> ManagerAdvertised(init))
    requires forall h :: 0 <= h < |r.outputs| ==> RecordFromGlobal(init, r, h)
    ensures forall h :: 0 <= h < |s.outputs| ==> RecordFromGlobal(init + [e], s, h)
  {
    forall h | 0 <= h < |s.outputs|
      ensures RecordFromGlobal(init + [e], s, h)
    {
      if h < |r.outputs| {
        RecordKeepsIdentity(r, e, h);
        KnownRecordExtends(init, e, r, s, h);
      } else {
        NewRecordFromGlobal(init, e, r, s);
      }
    }
  }

  /** What discovery yields from the initial state, record by record. */
  lemma {:induction false} ReplayDiscovers(es: seq<Event>)
    ensures forall h :: 0 <= h < |Replay(Initial, es).outputs| ==> RecordFromGlobal(es, Replay(Initial, es), h)
    decreases |es|
  {
    if es != [] {
      var init := es[..|es| - 1];
      var e := es[|es| - 1];
      assert es == init + [e];
      ReplayDiscovers(init);
      ReplayCounts(init);
      ReplaySnoc(init, e);
      assert Valid(Replay(Initial, init)) by { assert Valid(Initial); }
      DiscoversStep(init, e, Replay(Initial, init), Replay(Initial, es));
    }
  }

  /** Only a `wl_output` global adds a record; it goes to the head, unbound unless the manager is. */
  lemma StepOutputGlobal(r: Registry, e: Event)
    requires |Step(r, e).outputs| > |r.outputs|
    ensures IsOutputGlobal(e)
    ensures Step(r, e).outputs == [NewOutput(|r.outputs|, e.globalName).(xdgBound := r.managerBound)] + r.outputs
  {
  }

  /** Events never change a record's identity nor whether it has an xdg-output object. */
  lemma RecordKeepsIdentity(r: Registry, e: Event, h: nat)
    requires Valid(r) && h < |r.outputs|
    ensures var s := Step(r, e);
            s.outputs[|s.outputs| - 1 - h].wlName == r.outputs[|r.outputs| - 1 - h].wlName &&
            s.outputs[|s.outputs| - 1 - h].xdgBound == r.outputs[|r.outputs| - 1 - h].xdgBound
  {
  }

  /**
   * Without an override, `first_output` is the record of the first-advertised
   * output (handle 0), and it is set exactly when some output was advertised.
   */
  lemma {:induction false} FirstIsFirstAdvertised(es: seq<Event>)
    ensures Replay(Initial, es).first == if OutputGlobals(es) == 0 then None else Some(0)
    decreases |es|
  {
    if es != [] {
      FirstIsFirstAdvertised(es[..|es| - 1]);
      ReplayCounts(es[..|es| - 1]);
    }
  }

  /**
   * An output advertised before the manager never gets an xdg-output object:
   * binding the manager later does not reach back, so the name event that
   * follows has nowhere to go.
   */
  lemma ManagerAfterOutputScenario()
    ensures var s := Replay(Initial, [
              Global(1, WL_OUTPUT_INTERFACE, 4),
              Global(2, XDG_OUTPUT_MANAGER_INTERFACE, 3),
              Name(0, "eDP-1")]);
            && s.managerBound && s.first == Some(0) && |s.outputs| == 1
            && !s.outputs[0].xdgBound && s.outputs[0].name == None
  {
    var es := [
      Global(1, WL_OUTPUT_INTERFACE, 4),
      Global(2, XDG_OUTPUT_MANAGER_INTERFACE, 3),
      Name(0, "eDP-1")];
    var s1 := Step(Initial, es[0]);
    assert Replay(Initial, es[..1]) == s1 by { assert es[..1][..0] == []; }
    var s2 := Step(s1, es[1]);
    assert Replay(Initial, es[..2]) == s2 by { assert es[..2][..1] == es[..1]; }
    assert !s2.outputs[0].xdgBound && !Delivered(s2, es[2]);
    assert Replay(Initial, es) == s2 by { assert es[..2] == es[..|es| - 1]; }
  }

  /** The same output advertised after the manager does get an object, and its name. */
  lemma ManagerBeforeOutputScenario()
    ensures var s := Replay(Initial, [
              Global(2, XDG_OUTPUT_MANAGER_INTERFACE, 3),
              Global(1, WL_OUTPUT_INTERFACE, 4),
              Name(0, "eDP-1")]);
            && |s.outputs| == 1 && s.outputs[0].xdgBound && s.outputs[0].name == Some("eDP-1")
  {
    var es := [
      Global(2, XDG_OUTPUT_MANAGER_INTERFACE, 3),
      Global(1, WL_OUTPUT_INTERFACE, 4),
      Name(0, "eDP-1")];
    var s1 := Step(Initial, es[0]);
    assert Replay(Initial, es[..1]) == s1 by { assert es[..1][..0] == []; }
    var s2 := Step(s1, es[1]);
    assert Replay(Initial, es[..2]) == s2 by { assert es[..2][..1] == es[..1]; }
    assert s2.outputs[0].xdgBound && Pos(s2, 0) == 0;
    assert Replay(Initial, es) == Step(s2, es[2]) by { assert es[..2] == es[..|es| - 1]; }
  }

  /** The selection override compares against records with both make and model set. */
  predicate Identified(outs: seq<Output>) {
    forall i :: 0 <= i < |outs| ==> outs[i].make.Some? && outs[i].model.Some?
  }

  /** `"<make> <model>"` or the make alone equals the override string. */
  predicate Matches(o: Output, want: string): (b: bool)
    requires o.make.Some? && o.model.Some?
    ensures o.make.value == want ==> b
    ensures b ==> o.make.value <= want
  {
    o.make.value + " " + o.model.value == want || o.make.value == want
  }

  /** Position of the last matching record in list order. */
  function LastMatch(outs: seq<Output>, want: string): (m: Option<nat>)
    requires Identified(outs)
    ensures m.Some? ==> m.value < |outs| && Matches(outs[m.value], want)
    ensures m.Some? ==> forall j :: m.value < j < |outs| ==> !Matches(outs[j], want)
    ensures m.None? ==> forall j :: 0 <= j < |outs| ==> !Matches(outs[j], want)
    decreases |outs|
  {
    if outs == [] then None
    else if Matches(outs[|outs| - 1], want) then Some(|outs| - 1)
    else LastMatch(outs[..|outs| - 1], want)
  }

  /** The `WAYBACK_OUTPUT` scan: `first_output` becomes the last match, if any. */
  function Select(r: Registry, want: Option<string>): (s: Registry)
    requires want.Some? ==> Identified(r.outputs)
    ensures s.outputs == r.outputs && s.managerBound == r.managerBound
    ensures s.first != r.first ==>
              want.Some? && exists i :: 0 <= i < |r.outputs| && Matches(r.outputs[i], want.value)
                                       && s.first == Some(r.outputs[i].handle)
  {
    if want.None? then r
    else
      match LastMatch(r.outputs, want.value)
      case None => r
      case Some(i) => r.(first := Some(r.outputs[i].handle))
  }

  /** Selection only moves `first_output`, and it is set afterwards exactly when there are outputs. */
  lemma SelectKeepsValid(r: Registry, want: Option<string>)
    requires Valid(r) && (want.Some? ==> Identified(r.outputs))
    ensures Select(r, want).outputs == r.outputs && Select(r, want).managerBound == r.managerBound
    ensures Valid(Select(r, want))
    ensures Select(r, want).first.Some? <==> r.outputs != []
  {
  }

  /**
   * The list is newest first, so the record the scan settles on is the
   * earliest-advertised matching one: no matching record has a smaller handle.
   */
  lemma SelectPicksEarliestMatch(r: Registry, want: string, j: nat)
    requires Valid(r) && Identified(r.outputs)
    requires j < |r.outputs| && Matches(r.outputs[j], want)
    ensures Select(r, Some(want)).first.Some?
    ensures Select(r, Some(want)).first.value <= r.outputs[j].handle
    ensures Matches(r.outputs[Pos(r, Select(r, Some(want)).first.value)], want)
  {
  }

  /** Without a match the selection leaves `first_output` alone. */
  lemma SelectNoMatchKeepsFirst(r: Registry, want: string)
    requires Identified(r.outputs)
    requires forall j :: 0 <= j < |r.outputs| ==> !Matches(r.outputs[j], want)
    ensures Select(r, Some(want)) == r
  {
  }

}
