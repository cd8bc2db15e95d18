/**
 * `XtcData::load`: reading a trajectory frame by frame. The failure of reading the
 * topology, the failure of opening the trajectory and each frame the reader yields
 * stand for the reader library's results.
 */
module XtcLoader {
  import opened Common

  /** One frame as the library's iterator yields it: the atoms' positions
      (absent when missing), or a read error. */
  datatype FrameRead = FrameOk(positions: seq<Option<Vec3>>) | FrameErr(message: string)

  /** `Frame`: its enumeration index and one position per atom, in angstrom. */
  datatype Frame = Frame(id: nat, positions: seq<Vec3>)

  /** What `XtcData::load` ends in: its `Ok` or `Err`, or a panic from an
      unwrapped missing position. */
  datatype XtcOutcome = XtcOk(frames: seq<Frame>) | XtcErr(message: string) | Panicked

  predicate Complete(positions: seq<Option<Vec3>>)
  {
    forall a :: 0 <= a < |positions| ==> positions[a].Some?
  }

  /** Frame `f` yielded cleanly: no error and every position present. */
  predicate Clean(yielded: seq<FrameRead>, f: int)
    requires 0 <= f < |yielded|
  {
    yielded[f].FrameOk? && Complete(yielded[f].positions)
  }

  function InAngstrom(positions: seq<Option<Vec3>>): (ps: seq<Vec3>)
    requires Complete(positions)
    ensures |ps| == |positions|
    ensures forall a :: 0 <= a < |positions| ==> ps[a] == Scale(positions[a].value, 10.0)
  {
    seq(|positions|, a requires 0 <= a < |positions| => Scale(positions[a].value, 10.0))
  }

  /** The position loop of one frame: panics, as `None`, at the first missing
      position. */
  method FramePositions(positions: seq<Option<Vec3>>) returns (r: Option<seq<Vec3>>)
    ensures r.Some? <==> Complete(positions)
    ensures r.Some? ==> r.value == InAngstrom(positions)
  {
    var out := [];
    for a := 0 to |positions|
      invariant Complete(positions[..a])
      invariant out == InAngstrom(positions[..a])
    {
      if positions[a].None? {
        return None;
      }
      var p := positions[a].value;
      out := out + [Vec3(p.x * 10.0, p.y * 10.0, p.z * 10.0)];
    }
    assert positions[..|positions|] == positions;
    return Some(out);
  }

  /** `XtcData::load`: `topologyError` is the failure of reading the topology and
      `trajectoryError` the failure of opening the trajectory (`None` for success,
      or the error); `yielded` is each frame the reader yields. */
  method Load(topologyError: Option<string>, trajectoryError: Option<string>, yielded: seq<FrameRead>)
    returns (r: XtcOutcome)
    ensures topologyError.Some? ==> r == XtcErr(topologyError.value)
    ensures topologyError.None? && trajectoryError.Some? ==> r == XtcErr(trajectoryError.value)
    ensures r.XtcOk? <==> topologyError.None? && trajectoryError.None? && forall f :: 0 <= f < |yielded| ==> Clean(yielded, f)
    ensures r.XtcOk? ==> |r.frames| == |yielded|
    ensures r.XtcOk? ==> forall f :: 0 <= f < |yielded| ==>
      Clean(yielded, f) && r.frames[f] == Frame(f, InAngstrom(yielded[f].positions))
    ensures topologyError.None? && trajectoryError.None? && r.XtcErr? ==>
      exists f :: 0 <= f < |yielded| && yielded[f] == FrameErr(r.message) && forall g :: 0 <= g < f ==> Clean(yielded, g)
    ensures topologyError.None? && trajectoryError.None? && r.Panicked? ==>
      exists f :: 0 <= f < |yielded| && yielded[f].FrameOk? && !Complete(yielded[f].positions) &&
        forall g :: 0 <= g < f ==> Clean(yielded, g)
  {
    if topologyError.Some? {
      return XtcErr(topologyError.value);
    }
    if trajectoryError.Some? {
      return XtcErr(trajectoryError.value);
    }
    var frames := [];
    for f := 0 to |yielded|
      invariant forall g :: 0 <= g < f ==> Clean(yielded, g)
      invariant |frames| == f
      invariant forall g :: 0 <= g < f ==> Clean(yielded, g) && frames[g] == Frame(g, InAngstrom(yielded[g].positions))
    {
      match yielded[f]
      case FrameOk(positions) =>
        var ps := FramePositions(positions);
        if ps.None? {
          assert yielded[f].FrameOk? && !Complete(yielded[f].positions);
          assert !Clean(yielded, f);
          return Panicked;
        }
        frames := frames + [Frame(f, ps.value)];
      case FrameErr(e) =>
        assert !Clean(yielded, f);
        return XtcErr(e);
    }
    return XtcOk(frames);
  }
}
