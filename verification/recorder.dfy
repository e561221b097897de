/**
 * The recorder of BakeToBlendShape as a state machine on values: the live
 * display mesh (absent while no face is tracked), the output mesh being built
 * (absent while Idle) and the frame counter. Each event the component reacts
 * to is one transition; `Run` folds a sequence of them and collects the
 * assets handed to the asset sink.
 */
module Recorder {
  import opened Wrappers
  import opened Geometry
  import opened Naming

  /** Every frame is added at full weight. */
  const FrameWeight := 100

  /** One blend-shape frame: its name, its weight and one delta per vertex. */
  datatype Frame = Frame(name: string, weight: int, deltas: seq<Vec3>)

  /** The output mesh under construction: the base mesh and its frames, in the order they were added. */
  datatype Target = Target(base: Mesh, frames: seq<Frame>)

  /** The face geometry delivered by the tracker with an added or updated face (the pose is not modelled). */
  datatype FaceGeometry = FaceGeometry(vertices: seq<Vec3>, textureCoordinates: seq<Vec2>, triangleIndices: seq<int>)

  /** The component's state: `output` is None while Idle and Some while Recording. */
  datatype State = State(display: Option<Mesh>, output: Option<Target>, count: int)

  /** Fields before any event: no face, Idle, counter at the default 0. */
  const Initial := State(None, None, 0)

  /**
   * The two ways adding a frame throws when the live mesh and the base differ
   * in vertex count: an index past the live array, or a delta array whose
   * length is not the base mesh's vertex count.
   */
  datatype Fault = DeltaIndexOutOfRange | DeltaLengthMismatch

  /**
   * What one event does: either the new state and the asset handed to the
   * sink, if any, or a thrown fault, which leaves the fields as they were.
   */
  datatype Reaction = Reaction(next: State, emitted: Option<Target>) | Failed(fault: Fault)

  /** The events: the three tracker callbacks, and one Update tick with the keys pressed in it. */
  datatype Event =
    | FaceAdded(anchor: FaceGeometry)
    | FaceUpdated(anchor: FaceGeometry)
    | FaceRemoved
    | Tick(space: bool, ret: bool)

  function MeshOf(g: FaceGeometry): Mesh {
    Mesh(g.vertices, g.textureCoordinates, g.triangleIndices)
  }

  /** The frame added while the counter is `count`, for live vertices `live` against the base vertices `base`. */
  function NewFrame(count: int, live: seq<Vec3>, base: seq<Vec3>): Frame
    requires |base| <= |live|
  {
    Frame(ShapeName(count), FrameWeight, Displacement(live, base))
  }

  // ---- The recorder's operations ----

  function StartRecording(s: State): State
    requires s.display.Some?
  {
    s.(output := Some(Target(s.display.value, [])), count := 1)
  }

  function AddBlendShape(s: State): Reaction
    requires s.display.Some? && s.output.Some?
  {
    var t := s.output.value;
    var live := s.display.value.vertices;
    if |live| < |t.base.vertices| then Failed(DeltaIndexOutOfRange)
    else if |live| != |t.base.vertices| then Failed(DeltaLengthMismatch)
    else
      var frame := NewFrame(s.count, live, t.base.vertices);
      Reaction(s.(output := Some(t.(frames := t.frames + [frame])), count := s.count + 1), None)
  }

  function FinishRecording(s: State): Reaction
    requires s.output.Some?
  {
    Reaction(s.(output := None), s.output)
  }

  /** One Update tick: nothing without a face; then Space, then Return. */
  function Update(s: State, space: bool, ret: bool): Reaction {
    if s.display.None? then Reaction(s, None)
    else
      var afterSpace :=
        if !space then Reaction(s, None)
        else if s.output.None? then Reaction(StartRecording(s), None)
        else AddBlendShape(s);
      match afterSpace
      case Failed(_) => afterSpace
      case Reaction(m, _) => if ret && m.output.Some? then FinishRecording(m) else Reaction(m, None)
  }

  function Step(s: State, e: Event): Reaction {
    match e
    case FaceAdded(g) => Reaction(s.(display := Some(MeshOf(g))), None)
    case FaceUpdated(g) => Reaction(if s.display.None? then s else s.(display := Some(MeshOf(g))), None)
    case FaceRemoved => Reaction(s.(display := None), None)
    case Tick(space, ret) => Update(s, space, ret)
  }

  /** The state after `events` and the assets handed to the sink on the way, in order; a fault changes nothing. */
  function Run(s: State, events: seq<Event>): (State, seq<Target>)
    decreases |events|
  {
    if events == [] then (s, [])
    else
      var (m, out) := Run(s, events[..|events| - 1]);
      match Step(m, events[|events| - 1])
      case Failed(_) => (m, out)
      case Reaction(n, e) => (n, if e.Some? then out + [e.value] else out)
  }

  // ---- Invariants ----

  /** Frame k of a target is named Shape(k+1), has full weight and one delta per base vertex. */
  predicate FrameInPlace(t: Target, k: int)
    requires 0 <= k < |t.frames|
  {
    t.frames[k].name == ShapeName(k + 1) &&
    t.frames[k].weight == FrameWeight &&
    |t.frames[k].deltas| == |t.base.vertices|
  }

  predicate WellFormed(t: Target) {
    forall k :: 0 <= k < |t.frames| ==> FrameInPlace(t, k)
  }

  /** While Recording, the frames are well formed and the counter is one past the number of frames. */
  predicate Inv(s: State) {
    s.output.Some? ==> WellFormed(s.output.value) && s.count == |s.output.value.frames| + 1
  }

  // ---- Properties of single events ----

  /** The three tracker callbacks never touch the recording session, and do what they say to the display mesh. */
  lemma FaceEventsKeepSession(s: State, e: Event)
    requires !e.Tick?
    ensures Step(s, e).Reaction? && Step(s, e).emitted.None?
    ensures Step(s, e).next.output == s.output && Step(s, e).next.count == s.count
    ensures e.FaceRemoved? ==> Step(s, e).next.display.None?
    ensures e.FaceAdded? ==> Step(s, e).next.display == Some(MeshOf(e.anchor))
    ensures e.FaceUpdated? ==>
      Step(s, e).next.display == if s.display.None? then None else Some(MeshOf(e.anchor))
  {
  }

  /** While no face is tracked an Update does nothing, whatever the keys. */
  lemma NoFaceNoChange(s: State, space: bool, ret: bool)
    requires s.display.None?
    ensures Update(s, space, ret) == Reaction(s, None)
  {
  }

  /** Space while Idle captures the display mesh as the base with no frames and sets the counter to 1. */
  lemma SpaceWhileIdleStarts(s: State)
    requires s.display.Some? && s.output.None?
    ensures Update(s, true, false) == Reaction(State(s.display, Some(Target(s.display.value, [])), 1), None)
  {
  }

  /** Return while Idle does nothing. */
  lemma ReturnWhileIdleIsNoOp(s: State)
    requires s.output.None?
    ensures Update(s, false, true) == Reaction(s, None)
  {
  }

  /** Return while Recording emits the target as it stands and goes back to Idle; the counter is kept. */
  lemma ReturnWhileRecordingFinishes(s: State)
    requires s.display.Some? && s.output.Some?
    ensures Update(s, false, true) == Reaction(s.(output := None), s.output)
  {
  }

  /**
   * Space while Recording: it fails exactly when the vertex counts differ,
   * and otherwise appends one frame named after the counter whose deltas are
   * the live vertices minus the BASE vertices, raising the counter by one and
   * changing nothing else.
   */
  lemma SpaceWhileRecordingAdds(s: State)
    requires s.display.Some? && s.output.Some?
    ensures var live := s.display.value.vertices;
            var base := s.output.value.base.vertices;
            Update(s, true, false).Failed? <==> |live| != |base|
    ensures var live := s.display.value.vertices;
            var t := s.output.value;
            var r := Update(s, true, false);
            r.Reaction? ==>
              r.emitted.None? && r.next.display == s.display && r.next.count == s.count + 1 &&
              r.next.output.Some? && r.next.output.value.base == t.base &&
              |r.next.output.value.frames| == |t.frames| + 1 &&
              r.next.output.value.frames[..|t.frames|] == t.frames &&
              var f := r.next.output.value.frames[|t.frames|];
              f.name == ShapeName(s.count) && f.weight == FrameWeight &&
              |f.deltas| == |live| &&
              forall i :: 0 <= i < |live| ==> f.deltas[i] == Sub(live[i], t.base.vertices[i])
  {
  }

  /** An Update throws only on Space while Recording against a live mesh whose vertex count differs from the base's. */
  lemma UpdateFailsOnlyOnMismatch(s: State, space: bool, ret: bool)
    requires Update(s, space, ret).Failed?
    ensures s.display.Some? && s.output.Some? && space
    ensures |s.display.value.vertices| != |s.output.value.base.vertices|
  {
  }

  // ---- The invariant is kept ----

  lemma UpdateKeepsInv(s: State, space: bool, ret: bool)
    requires Inv(s)
    ensures var r := Update(s, space, ret);
            r.Reaction? ==> Inv(r.next) && (r.emitted.Some? ==> WellFormed(r.emitted.value))
  {
    if s.display.Some? && space && s.output.Some? && AddBlendShape(s).Reaction? {
      var t := s.output.value;
      var t' := AddBlendShape(s).next.output.value;
      forall k | 0 <= k < |t'.frames| ensures FrameInPlace(t', k) {
        if k < |t.frames| {
          assert t'.frames[k] == t.frames[k];
          assert FrameInPlace(t, k);
        }
      }
    }
  }

  lemma StepKeepsInv(s: State, e: Event)
    requires Inv(s)
    ensures var r := Step(s, e);
            r.Reaction? ==> Inv(r.next) && (r.emitted.Some? ==> WellFormed(r.emitted.value))
  {
    if e.Tick? {
      UpdateKeepsInv(s, e.space, e.ret);
    }
  }

  /** From a state that keeps the invariant, every asset a run emits is well formed and the invariant still holds at the end. */
  lemma {:induction false} RunKeepsInv(s: State, events: seq<Event>)
    requires Inv(s)
    ensures Inv(Run(s, events).0)
    ensures forall j :: 0 <= j < |Run(s, events).1| ==> WellFormed(Run(s, events).1[j])
  {
    if events != [] {
      var prefix := events[..|events| - 1];
      RunKeepsInv(s, prefix);
      var (m, out) := Run(s, prefix);
      StepKeepsInv(m, events[|events| - 1]);
    }
  }

  lemma InitialInv()
    ensures Inv(Initial) && Initial.output.None?
  {
  }

  /** Frame names within a well-formed target are Shape1, Shape2, ... and no two of them are equal. */
  lemma FrameNamesDistinct(t: Target)
    requires WellFormed(t)
    ensures forall k :: 0 <= k < |t.frames| ==> t.frames[k].name == ShapeName(k + 1)
    ensures forall j, k :: 0 <= j < k < |t.frames| ==> t.frames[j].name != t.frames[k].name
  {
    forall k | 0 <= k < |t.frames| ensures t.frames[k].name == ShapeName(k + 1) {
      assert FrameInPlace(t, k);
    }
    forall j, k | 0 <= j < k < |t.frames| ensures t.frames[j].name != t.frames[k].name {
      ShapeNameInjective(j + 1, k + 1);
    }
  }

  // ---- A session only grows ----

  /**
   * While Recording, an event that emits nothing leaves the session
   * Recording with the same base and the old frames as a prefix; an event
   * that emits hands over a target with that same base and those frames as
   * a prefix, and goes back to Idle.
   */
  lemma StepWhileRecording(s: State, e: Event)
    requires s.output.Some?
    ensures var r := Step(s, e);
            r.Reaction? ==>
              var t := if r.emitted.Some? then r.emitted.value else r.next.output.value;
              (r.emitted.None? <==> r.next.output.Some?) &&
              t.base == s.output.value.base && s.output.value.frames <= t.frames
  {
  }

  /** A run from a Recording state that emits nothing ends Recording, with the same base and the old frames as a prefix. */
  lemma {:induction false} SessionOnlyGrows(s: State, events: seq<Event>)
    requires s.output.Some?
    requires Run(s, events).1 == []
    ensures Run(s, events).0.output.Some?
    ensures Run(s, events).0.output.value.base == s.output.value.base
    ensures s.output.value.frames <= Run(s, events).0.output.value.frames
  {
    if events != [] {
      var prefix := events[..|events| - 1];
      var (m, out) := Run(s, prefix);
      assert out == [];
      SessionOnlyGrows(s, prefix);
      StepWhileRecording(m, events[|events| - 1]);
    }
  }

  /**
   * The first asset a run hands over, starting from a Recording state, has
   * the base that was captured at the start, and the frames recorded so far
   * as a prefix of its frames.
   */
  lemma {:induction false} FirstAssetHasSessionBase(s: State, events: seq<Event>)
    requires s.output.Some?
    requires Run(s, events).1 != []
    ensures Run(s, events).1[0].base == s.output.value.base
    ensures s.output.value.frames <= Run(s, events).1[0].frames
  {
    var prefix := events[..|events| - 1];
    var (m, out) := Run(s, prefix);
    if out != [] {
      FirstAssetHasSessionBase(s, prefix);
    } else {
      SessionOnlyGrows(s, prefix);
      StepWhileRecording(m, events[|events| - 1]);
    }
  }

  /**
   * Deltas do not compound: pressing Space twice against the same live mesh
   * adds two frames with the same deltas, each the live mesh minus the base.
   */
  lemma CapturingTwiceGivesEqualFrames(s: State)
    requires s.display.Some? && s.output.Some?
    requires |s.display.value.vertices| == |s.output.value.base.vertices|
    ensures Update(s, true, false).Reaction?
    ensures var s1 := Update(s, true, false).next;
            var r2 := Update(s1, true, false);
            r2.Reaction? && r2.next.output.Some? &&
            var f := r2.next.output.value.frames;
            |f| == |s.output.value.frames| + 2 &&
            f[|f| - 2].deltas == f[|f| - 1].deltas ==
              Displacement(s.display.value.vertices, s.output.value.base.vertices)
  {
  }

  // ---- A worked session ----

  /**
   * A four-vertex mesh appears; Space captures it as the base; vertex 0 moves
   * from (0,0,0) to (0,0,1); Space adds "Shape1" whose only non-zero delta is
   * (0,0,1) at vertex 0; Return hands over the base and that one frame.
   */
  lemma FourVertexSession()
    ensures var v0 := [Zero, Vec3(1, 0, 0), Vec3(0, 1, 0), Vec3(1, 1, 0)];
            var v1 := v0[0 := Vec3(0, 0, 1)];
            var uv := [Vec2(0, 0), Vec2(1, 0), Vec2(0, 1), Vec2(1, 1)];
            var tris := [0, 1, 2, 2, 1, 3];
            var g0 := FaceGeometry(v0, uv, tris);
            var g1 := FaceGeometry(v1, uv, tris);
            Run(Initial, [FaceAdded(g0), Tick(true, false), FaceUpdated(g1), Tick(true, false), Tick(false, true)])
            == (State(Some(MeshOf(g1)), None, 2),
                [Target(MeshOf(g0), [Frame("Shape1", 100, [Vec3(0, 0, 1), Zero, Zero, Zero])])])
  {
    var v0 := [Zero, Vec3(1, 0, 0), Vec3(0, 1, 0), Vec3(1, 1, 0)];
    var v1 := v0[0 := Vec3(0, 0, 1)];
    var uv := [Vec2(0, 0), Vec2(1, 0), Vec2(0, 1), Vec2(1, 1)];
    var tris := [0, 1, 2, 2, 1, 3];
    var g0, g1 := FaceGeometry(v0, uv, tris), FaceGeometry(v1, uv, tris);
    var es := [FaceAdded(g0), Tick(true, false), FaceUpdated(g1), Tick(true, false), Tick(false, true)];
    var base := MeshOf(g0);
    var s1 := State(Some(base), None, 0);
    var s2 := State(Some(base), Some(Target(base, [])), 1);
    var s3 := State(Some(MeshOf(g1)), Some(Target(base, [])), 1);
    assert ShapeName(1) == "Shape1" by {
      assert NatToDecimal(1) == [DigitChar(1)];
    }
    var frame := Frame("Shape1", 100, [Vec3(0, 0, 1), Zero, Zero, Zero]);
    assert Displacement(v1, v0) == frame.deltas;
    var s4 := State(Some(MeshOf(g1)), Some(Target(base, [frame])), 2);
    assert Run(Initial, es[..1]) == (s1, []);
    assert Run(Initial, es[..2]) == (s2, []) by { assert es[..2][..1] == es[..1]; }
    assert Run(Initial, es[..3]) == (s3, []) by { assert es[..3][..2] == es[..2]; }
    assert NewFrame(1, v1, v0) == frame;
    assert AddBlendShape(s3) == Reaction(s4, None) by {
      assert [] + [frame] == [frame];
    }
    assert Update(s3, true, false) == Reaction(s4, None);
    assert Step(s3, es[3]) == Reaction(s4, None);
    assert Run(Initial, es[..4]) == (s4, []) by { assert es[..4][..3] == es[..3]; }
    assert Step(s4, es[4]) == Reaction(s4.(output := None), Some(Target(base, [frame])));
    assert es[..|es| - 1] == es[..4];
    assert [] + [Target(base, [frame])] == [Target(base, [frame])];
    assert Run(Initial, es) == (s4.(output := None), [Target(base, [frame])]);
  }
}
