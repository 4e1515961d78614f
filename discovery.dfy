/**
 * The client side of output discovery as Xwayback runs it: `struct xwayback`
 * with its list of outputs, the registry and output listeners that update
 * records in place, the two round-trips that deliver the compositor's events,
 * and the `WAYBACK_OUTPUT` scan that picks the output to size Xwayland by.
 *
 * The libwayland connection is replaced by the ordered events it would
 * deliver; every method is proved against the value-level functions of
 * module Outputs.
 */
module Discovery {

  import opened Wrappers
  import opened CInts
  import opened Outputs
  import XwaylandArgs

  class Xwayback {
    /** Whether `xdg_output_manager` is bound. */
    var managerBound: bool
    /** `outputs`, head first. */
    var outputs: seq<Output>
    /** `first_output`, as the handle of the record it points to. */
    var firstOutput: Option<nat>

    function State(): Registry
      reads this
    {
      Registry(managerBound, outputs, firstOutput)
    }

    /** The state after `wl_list_init(&outputs)` and `first_output = NULL`. */
    constructor ()
      ensures State() == Initial
    {
      managerBound := false;
      outputs := [];
      firstOutput := None;
    }

    /**
     * `add_xdg_output` on the record at list position `p`: a no-op when the
     * record already has an xdg-output object, otherwise it gets one.
     */
    method AddXdgOutput(p: nat)
      requires managerBound && p < |outputs|
      modifies this`outputs
      ensures old(outputs[p].xdgBound) ==> outputs == old(outputs)
      ensures outputs == old(outputs)[p := old(outputs[p]).(xdgBound := true)]
    {
      if outputs[p].xdgBound {
        return;
      }
      outputs := outputs[p := outputs[p].(xdgBound := true)];
    }

    /** `handle_global` */
    method HandleGlobal(name: u32, iface: string, version: u32)
      modifies this
      ensures State() == Step(old(State()), Global(name, iface, version))
    {
      if iface == WL_OUTPUT_INTERFACE {
        var o := NewOutput(|outputs|, name);
        outputs := [o] + outputs;
        if firstOutput.None? {
          firstOutput := Some(o.handle);
        }
        if managerBound {
          AddXdgOutput(0);
        }
      } else if iface == XDG_OUTPUT_MANAGER_INTERFACE {
        managerBound := true;
      }
    }

    /** `output_geometry`: the position arguments are not stored. */
    method OutputGeometry(h: nat, x: i32, y: i32, widthMm: i32, heightMm: i32, subpixel: i32,
                          make: Option<string>, model: Option<string>, transform: i32)
      requires h < |outputs|
      modifies this`outputs
      ensures State() == Step(old(State()), Geometry(h, x, y, widthMm, heightMm, subpixel, make, model, transform))
    {
      var p := |outputs| - 1 - h;
      outputs := outputs[p := outputs[p].(physicalHeight := heightMm, physicalWidth := widthMm,
                                         make := make, model := model,
                                         subpixel := subpixel, transform := transform)];
    }

    /** `output_mode` */
    method OutputMode(h: nat, flags: u32, width: i32, height: i32, refresh: i32)
      requires h < |outputs|
      modifies this`outputs
      ensures State() == Step(old(State()), Mode(h, flags, width, height, refresh))
    {
      var p := |outputs| - 1 - h;
      outputs := outputs[p := outputs[p].(refreshMhz := refresh, width := ToU32(width), height := ToU32(height))];
    }

    /** `output_scale` */
    method OutputScale(h: nat, factor: i32)
      requires h < |outputs|
      modifies this`outputs
      ensures State() == Step(old(State()), Scale(h, factor))
    {
      var p := |outputs| - 1 - h;
      outputs := outputs[p := outputs[p].(scale := factor)];
    }

    /** `xdg_output_handle_logical_position` */
    method XdgLogicalPosition(h: nat, x: i32, y: i32)
      requires h < |outputs| && outputs[|outputs| - 1 - h].xdgBound
      modifies this`outputs
      ensures State() == Step(old(State()), LogicalPosition(h, x, y))
    {
      var p := |outputs| - 1 - h;
      outputs := outputs[p := outputs[p].(x := ToU32(x), y := ToU32(y))];
    }

    /** `xdg_output_handle_logical_size` */
    method XdgLogicalSize(h: nat, width: i32, height: i32)
      requires h < |outputs| && outputs[|outputs| - 1 - h].xdgBound
      modifies this`outputs
      ensures State() == Step(old(State()), LogicalSize(h, width, height))
    {
      var p := |outputs| - 1 - h;
      outputs := outputs[p := outputs[p].(height := ToU32(height), width := ToU32(width))];
    }

    /** `xdg_output_handle_name` */
    method XdgName(h: nat, name: string)
      requires h < |outputs| && outputs[|outputs| - 1 - h].xdgBound
      modifies this`outputs
      ensures State() == Step(old(State()), Name(h, name))
    {
      var p := |outputs| - 1 - h;
      outputs := outputs[p := outputs[p].(name := Some(name))];
    }

    /** `xdg_output_handle_description` */
    method XdgDescription(h: nat, description: string)
      requires h < |outputs| && outputs[|outputs| - 1 - h].xdgBound
      modifies this`outputs
      ensures State() == Step(old(State()), Description(h, description))
    {
      var p := |outputs| - 1 - h;
      outputs := outputs[p := outputs[p].(description := Some(description))];
    }

    /**
     * libwayland's dispatch of one event: to the registry listener, or to the
     * listener of the object it comes from when that object exists.
     */
    method Dispatch(e: Event)
      modifies this
      ensures State() == Step(old(State()), e)
    {
      if e.Global? {
        HandleGlobal(e.globalName, e.iface, e.version);
      } else if Delivered(State(), e) {
        var h := e.target;
        match e
        case Geometry(_, x, y, widthMm, heightMm, subpixel, make, model, transform) =>
          OutputGeometry(h, x, y, widthMm, heightMm, subpixel, make, model, transform);
        case Mode(_, flags, width, height, refresh) => OutputMode(h, flags, width, height, refresh);
        case Scale(_, factor) => OutputScale(h, factor);
        case LogicalPosition(_, x, y) => XdgLogicalPosition(h, x, y);
        case LogicalSize(_, width, height) => XdgLogicalSize(h, width, height);
        case Name(_, name) => XdgName(h, name);
        case Description(_, text) => XdgDescription(h, text);
        case Done(_, _) =>
          // `output_done` and `xdg_output_handle_done` do nothing.
      }
    }

    /** The two `wl_display_roundtrip` calls: every queued event, in order. */
    method Roundtrips(events: seq<Event>)
      modifies this
      ensures State() == Replay(old(State()), events)
    {
      var i := 0;
      while i < |events|
        invariant 0 <= i <= |events|
        invariant State() == Replay(old(State()), events[..i])
      {
        Dispatch(events[i]);
        assert events[..i + 1][..i] == events[..i];
        i := i + 1;
      }
      assert events[..|events|] == events;
    }

    /**
     * The `WAYBACK_OUTPUT` scan and the `first_output` check: with an override,
     * every matching record in list order becomes `first_output` in turn;
     * `found` is false when there is no output to use.
     */
    method SelectOutput(want: Option<string>) returns (found: bool)
      requires want.Some? ==> Identified(outputs)
      modifies this`firstOutput
      ensures State() == Select(old(State()), want)
      ensures found <==> firstOutput.Some?
    {
      if want.Some? {
        var i := 0;
        while i < |outputs|
          invariant 0 <= i <= |outputs|
          invariant Identified(outputs[..i])
          invariant firstOutput == match LastMatch(outputs[..i], want.value)
                                   case None => old(firstOutput)
                                   case Some(k) => Some(outputs[k].handle)
        {
          var o := outputs[i];
          var makeModel := o.make.value + " " + o.model.value;
          assert outputs[..i + 1][..i] == outputs[..i];
          if makeModel == want.value || o.make.value == want.value {
            firstOutput := Some(o.handle);
          }
          i := i + 1;
        }
        assert outputs[..|outputs|] == outputs;
      }
      found := firstOutput.Some?;
    }

    /**
     * Discovery as `main` runs it: the round-trips, the `WAYBACK_OUTPUT` scan,
     * then either the failure for a compositor without outputs (`None`) or the
     * geometry string of `first_output`.
     */
    method Discover(events: seq<Event>, want: Option<string>) returns (geometry: Option<string>)
      requires Valid(State())
      requires want.Some? ==> Identified(Replay(State(), events).outputs)
      modifies this
      ensures State() == Select(Replay(old(State()), events), want)
      ensures geometry.None? <==> outputs == []
      ensures geometry.Some? ==> geometry == Some(XwaylandArgs.Resolution(State()))
    {
      ghost var r := Replay(State(), events);
      Roundtrips(events);
      var found := SelectOutput(want);
      SelectKeepsValid(r, want);
      if !found {
        return None;
      }
      var p := |outputs| - 1 - firstOutput.value;
      assert p == Pos(State(), firstOutput.value);
      geometry := Some(XwaylandArgs.GeometryText(outputs[p].width, outputs[p].height));
    }
  }

}
