/**
 * The BakeToBlendShape component: three fields updated in place by the
 * tracker callbacks and by the per-frame Update. Each method's new state is
 * the one the Recorder state machine gives, so the properties proved there
 * hold of the component.
 */
module FaceBaker {
  import opened Wrappers
  import opened Geometry
  import opened Naming
  import Recorder

  /**
   * The subtraction loop of AddBlendShape: `delta` starts as a copy of the
   * live vertices and the base vertex is subtracted at every index of the
   * base, in place. The caller must supply at least as many live vertices
   * as base vertices, or the loop indexes past `delta`.
   */
  method SubtractBase(live: seq<Vec3>, original: seq<Vec3>) returns (delta: seq<Vec3>)
    requires |original| <= |live|
    ensures |delta| == |live|
    ensures forall i :: 0 <= i < |original| ==> delta[i] == Sub(live[i], original[i])
    ensures forall i :: |original| <= i < |live| ==> delta[i] == live[i]
    ensures delta == Displacement(live, original)
  {
    var a := new Vec3[|live|](i requires 0 <= i < |live| => live[i]);
    for i := 0 to |original|
      invariant forall j :: 0 <= j < i ==> a[j] == Sub(live[j], original[j])
      invariant forall j :: i <= j < a.Length ==> a[j] == live[j]
    {
      a[i] := Sub(a[i], original[i]);
    }
    delta := a[..];
  }

  class BakeToBlendShape {
    /** The live face mesh; None while no face is tracked. */
    var displayMesh: Option<Mesh>
    /** The mesh being recorded; None while Idle. */
    var outputMesh: Option<Recorder.Target>
    /** The number given to the next frame. */
    var outputCount: int

    constructor ()
      ensures State() == Recorder.Initial && Valid()
    {
      displayMesh := None;
      outputMesh := None;
      outputCount := 0;
    }

    function State(): Recorder.State
      reads this
    {
      Recorder.State(displayMesh, outputMesh, outputCount)
    }

    ghost predicate Valid()
      reads this
    {
      Recorder.Inv(State())
    }

    // ---- Tracker callbacks ----

    /** A face appears: the display mesh is replaced by a new one holding the face's geometry. */
    method FaceAdded(anchor: Recorder.FaceGeometry)
      requires Valid()
      modifies this
      ensures Valid()
      ensures displayMesh == Some(Recorder.MeshOf(anchor))
      ensures outputMesh == old(outputMesh) && outputCount == old(outputCount)
      ensures Recorder.Step(old(State()), Recorder.FaceAdded(anchor)) == Recorder.Reaction(State(), None)
    {
      displayMesh := Some(Mesh([], [], []));
      FaceUpdated(anchor);
    }

    /** The face moves: vertices, UVs and triangles of the display mesh are replaced together, if there is one. */
    method FaceUpdated(anchor: Recorder.FaceGeometry)
      requires Valid()
      modifies this
      ensures Valid()
      ensures displayMesh == if old(displayMesh).None? then None else Some(Recorder.MeshOf(anchor))
      ensures outputMesh == old(outputMesh) && outputCount == old(outputCount)
      ensures Recorder.Step(old(State()), Recorder.FaceUpdated(anchor)) == Recorder.Reaction(State(), None)
    {
      if displayMesh.None? {
        return;
      }
      var mesh := displayMesh.value;
      mesh := mesh.(vertices := anchor.vertices);
      mesh := mesh.(uv := anchor.textureCoordinates);
      mesh := mesh.(triangles := anchor.triangleIndices);
      displayMesh := Some(mesh);
    }

    /** The face is lost: the display mesh becomes absent. */
    method FaceRemoved()
      requires Valid()
      modifies this
      ensures Valid()
      ensures displayMesh.None?
      ensures outputMesh == old(outputMesh) && outputCount == old(outputCount)
      ensures Recorder.Step(old(State()), Recorder.FaceRemoved) == Recorder.Reaction(State(), None)
    {
      if displayMesh.Some? {
        displayMesh := None;
      }
    }

    // ---- Key dispatch ----

    /**
     * One frame of the component, with whether Space and Return went down in
     * it. Returns the asset handed to the sink, if any, or the fault thrown.
     */
    method Update(spaceDown: bool, returnDown: bool) returns (r: Recorder.Reaction)
      requires Valid()
      modifies this
      ensures Valid()
      ensures r == Recorder.Update(old(State()), spaceDown, returnDown)
      ensures State() == if r.Reaction? then r.next else old(State())
    {
      ghost var s0 := State();
      Recorder.UpdateKeepsInv(s0, spaceDown, returnDown);
      if displayMesh.None? {
        return Recorder.Reaction(State(), None);
      }
      if spaceDown {
        if outputMesh.None? {
          StartRecording();
        } else {
          var fault := AddBlendShape();
          if fault.Some? {
            return Recorder.Failed(fault.value);
          }
        }
      }
      var emitted := None;
      if returnDown {
        if outputMesh.Some? {
          var asset := FinishRecording();
          emitted := Some(asset);
        }
      }
      r := Recorder.Reaction(State(), emitted);
    }

    // ---- Blend shape operations ----

    /** Captures the display mesh's vertices, UVs and triangles as the base, with no frames, and sets the counter to 1. */
    method StartRecording()
      requires Valid() && displayMesh.Some?
      modifies this
      ensures Valid()
      ensures displayMesh == old(displayMesh)
      ensures outputMesh == Some(Recorder.Target(displayMesh.value, []))
      ensures outputCount == 1
      ensures State() == Recorder.StartRecording(old(State()))
    {
      var display := displayMesh.value;
      var base := Mesh(display.vertices, display.uv, display.triangles);
      outputMesh := Some(Recorder.Target(base, []));
      outputCount := 1;
    }

    /**
     * Appends the frame "Shape<count>" at weight 100 whose deltas are the
     * display vertices minus the base vertices, and raises the counter by
     * one. Throws, changing nothing, when the vertex counts differ.
     */
    method AddBlendShape() returns (fault: Option<Recorder.Fault>)
      requires Valid() && displayMesh.Some? && outputMesh.Some?
      modifies this
      ensures Valid()
      ensures fault.Some? <==> |old(displayMesh).value.vertices| != |old(outputMesh).value.base.vertices|
      ensures fault.Some? ==> State() == old(State())
      ensures fault.None? ==>
        outputMesh == Some(old(outputMesh).value.(frames := old(outputMesh).value.frames +
          [Recorder.Frame(ShapeName(old(outputCount)), Recorder.FrameWeight,
             Displacement(old(displayMesh).value.vertices, old(outputMesh).value.base.vertices))])) &&
        outputCount == old(outputCount) + 1 &&
        displayMesh == old(displayMesh)
      ensures Recorder.AddBlendShape(old(State())) ==
        if fault.Some? then Recorder.Failed(fault.value) else Recorder.Reaction(State(), None)
    {
      Recorder.UpdateKeepsInv(State(), true, false);
      var target := outputMesh.value;
      var original := target.base.vertices;
      var live := displayMesh.value.vertices;
      if |live| < |original| {
        return Some(Recorder.DeltaIndexOutOfRange);
      }
      var delta := SubtractBase(live, original);
      if |delta| != |original| {
        return Some(Recorder.DeltaLengthMismatch);
      }
      var frame := Recorder.Frame(ShapeName(outputCount), Recorder.FrameWeight, delta);
      outputMesh := Some(target.(frames := target.frames + [frame]));
      outputCount := outputCount + 1;
      fault := None;
    }

    /** Hands the output mesh (base and frames) to the asset sink and goes back to Idle; the counter is kept. */
    method FinishRecording() returns (asset: Recorder.Target)
      requires Valid() && outputMesh.Some?
      modifies this
      ensures Valid()
      ensures Some(asset) == old(outputMesh)
      ensures outputMesh.None? && outputCount == old(outputCount) && displayMesh == old(displayMesh)
      ensures Recorder.FinishRecording(old(State())) == Recorder.Reaction(State(), Some(asset))
    {
      asset := outputMesh.value;
      outputMesh := None;
    }
  }
}
