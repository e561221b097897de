# FaceBaker: the blend-shape recorder, modelled in Dafny

FaceBaker's `BakeToBlendShape` component shows a live, face-tracked mesh. It
turns snapshots of that mesh into a blend-shape asset. Pressing Space while
Idle captures the live mesh as the BASE. Each later Space adds one frame whose
deltas are the live vertices minus the base vertices. Each frame is named
`Shape1`, `Shape2`, … and has weight 100. Return hands the base and its frames
to the asset database and goes back to Idle. While no face is tracked, Update
does nothing.

The model has five modules:

- `Wrappers` (`wrappers.dfy`): `Option`, which stands for a reference field that may be null.
- `Geometry` (`geometry.dfy`): vertices as integer triples, the `Mesh` value (vertices, UVs, flat triangle indices), `Displacement` (index-wise live minus base) and its inverse `Displace`.
- `Naming` (`naming.dfy`): the decimal text of an `int`, as string concatenation with an int produces it, and `ShapeName(count) = "Shape" + count`.
- `Recorder` (`recorder.dfy`): the component as a state machine on values. The `State` holds the display mesh, the output mesh (`None` means Idle) and the counter. `Step` covers the three tracker callbacks and one `Update` tick with its two keys. `Run` folds a sequence of events and collects the assets handed over. These functions carry no contracts of their own. What they do is stated by the lemmas listed below, and all multi-event properties are lemmas about them.
- `FaceBaker` (`bake_to_blend_shape.dfy`): the class `BakeToBlendShape` with the fields `displayMesh`, `outputMesh` and `outputCount`, updated in place by one method per callback and per operation. `SubtractBase` is the in-place subtraction loop of `AddBlendShape`, run on a fresh array. Every method's `ensures` gives the new fields outright. It also ties them to the `Recorder` transition, so the `Recorder` lemmas hold of the class. The object invariant `Valid()` is `Recorder.Inv` on the fields.

The component is sometimes described as a begin/capture/finish recorder with error returns. Where that description and the code differ, the model follows the code:

- The counter is set to 1 by `StartRecording` and is never reset by `FinishRecording`. It is not reset to zero.
- Space means "start" when Idle and "add a frame" when Recording. Return while Idle is silently ignored. No protocol error is returned.
- Update with no tracked face returns silently. There is no "no tracked mesh" error.
- The code never checks vertex counts. If the live mesh has fewer vertices than the base, the loop indexes past `delta` and throws. If it has more, the engine's frame append rejects a delta array whose length is not the mesh's vertex count. The model returns `Failed(DeltaIndexOutOfRange)` or `Failed(DeltaLengthMismatch)` and leaves the fields unchanged. The exception also ends that `Update` early, so a Return pressed in the same frame is not handled.
- The code does not validate geometry. There is no "invalid geometry" error.
- When Space and Return go down in the same frame, Space is handled first. So from Idle, one frame both starts and finishes a recording, and hands over the base with no frames.

## Model

| member | source | states |
|---|---|---|
| FaceBaker.SubtractBase | Assets/BakeToBlendShape.cs:124-128 | needs at least as many live vertices as base vertices (the loop indexes `delta[i]` for every base index); the result has the live length, `delta[i] = live[i] - base[i]` below the base length, and the live vertex is kept past it |
| Geometry.Displacement | Assets/BakeToBlendShape.cs:124-128 | the reference definition of the subtraction loop: the result has the live length, holds live minus base below the base length and the live vertex past it; its contract states only the length, and `FaceBaker.SubtractBase`, `DisplaceUndoesDisplacement`, `DisplacementUndoesDisplace` and `DisplacementOfBaseIsZero` state the rest |
| Geometry.Displace | Assets/BakeToBlendShape.cs:130-133 | a frame applied at full weight (weight 100): base plus delta at every index; its contract states only the length, and the two inverse lemmas below tie it to `Displacement` |
| Geometry.DisplaceUndoesDisplacement | Assets/BakeToBlendShape.cs:124-128 | applying a frame's deltas at full weight to the base gives back the live vertices it was captured from |
| Geometry.DisplacementUndoesDisplace | Assets/BakeToBlendShape.cs:124-128 | the displacement of a displaced base is the delta that was applied, so delta and live mesh determine each other |
| Geometry.DisplacementOfBaseIsZero | Assets/BakeToBlendShape.cs:124-128 | a live mesh equal to the base gives a zero delta at every vertex |
| Naming.NatToDecimal | Assets/BakeToBlendShape.cs:131 | the decimal text of a counter is non-empty, made of digits, one character long exactly for values below 10, and has no leading zero; with `DecimalRoundTrip` this fixes it as the canonical decimal text |
| Naming.DecimalRoundTrip | Assets/BakeToBlendShape.cs:131 | reading the decimal text of n back gives n |
| Naming.IntToStringInjective | Assets/BakeToBlendShape.cs:131 | two integers with the same text are equal, negative values included |
| Naming.ShapeName | Assets/BakeToBlendShape.cs:131 | a frame name is "Shape" followed by at least one more character |
| Naming.ShapeNameInjective | Assets/BakeToBlendShape.cs:131 | two frame names are equal if and only if their counters are |
| Recorder.StartRecording | Assets/BakeToBlendShape.cs:108-120 | no contract of its own; `SpaceWhileIdleStarts` states it, and `FaceBaker.BakeToBlendShape.StartRecording` is tied to it |
| Recorder.AddBlendShape | Assets/BakeToBlendShape.cs:122-136 | no contract of its own; `SpaceWhileRecordingAdds`, `UpdateFailsOnlyOnMismatch` and `CapturingTwiceGivesEqualFrames` state it, and `FaceBaker.BakeToBlendShape.AddBlendShape` is tied to it |
| Recorder.FinishRecording | Assets/BakeToBlendShape.cs:138-144 | no contract of its own; `ReturnWhileRecordingFinishes` states it, and `FaceBaker.BakeToBlendShape.FinishRecording` is tied to it |
| Recorder.Update | Assets/BakeToBlendShape.cs:43-65 | no contract of its own; `NoFaceNoChange`, `SpaceWhileIdleStarts`, `SpaceWhileRecordingAdds`, `ReturnWhileIdleIsNoOp`, `ReturnWhileRecordingFinishes`, `UpdateFailsOnlyOnMismatch` and `UpdateKeepsInv` state it, and `FaceBaker.BakeToBlendShape.Update` is tied to it |
| Recorder.Step | Assets/BakeToBlendShape.cs:71-102 | no contract of its own; `FaceEventsKeepSession` states the three callbacks, `StepKeepsInv` and `StepWhileRecording` state every event, and the class's callback methods are tied to it |
| Recorder.Run | Assets/BakeToBlendShape.cs:43-144 | no contract of its own; `RunKeepsInv`, `SessionOnlyGrows`, `FirstAssetHasSessionBase` and `FourVertexSession` state it |
| Recorder.FaceEventsKeepSession | Assets/BakeToBlendShape.cs:71-102 | the tracker callbacks never change the output mesh or the counter and never emit. FaceRemoved makes the display absent. FaceAdded installs the anchor's geometry. FaceUpdated does that only when a display mesh exists |
| Recorder.NoFaceNoChange | Assets/BakeToBlendShape.cs:45 | with no display mesh an Update changes nothing and emits nothing, whatever the keys |
| Recorder.SpaceWhileIdleStarts | Assets/BakeToBlendShape.cs:108-120 | Space while Idle captures the display mesh's vertices, UVs and triangles as the base, with no frames, and sets the counter to 1 |
| Recorder.ReturnWhileIdleIsNoOp | Assets/BakeToBlendShape.cs:60-64 | Return while Idle changes nothing and emits nothing |
| Recorder.ReturnWhileRecordingFinishes | Assets/BakeToBlendShape.cs:138-144 | Return while Recording emits the output mesh as it stands and goes back to Idle; the counter and the display are kept |
| Recorder.SpaceWhileRecordingAdds | Assets/BakeToBlendShape.cs:122-136 | Space while Recording fails if and only if the vertex counts differ. Otherwise it appends exactly one frame and keeps the base and earlier frames. The frame is named after the counter, has weight 100, and has `delta[i] = live[i] - base[i]` at every index. The counter goes up by one and the display is untouched |
| Recorder.UpdateFailsOnlyOnMismatch | Assets/BakeToBlendShape.cs:124-133 | an Update throws only on Space while Recording against a live mesh whose vertex count differs from the base's |
| Recorder.UpdateKeepsInv | Assets/BakeToBlendShape.cs:43-65 | an Update keeps the recording invariant (frame k is named Shape(k+1), weight 100, one delta per base vertex; counter = frames + 1), and any asset it emits satisfies it |
| Recorder.StepKeepsInv | Assets/BakeToBlendShape.cs:43-102 | every event, callbacks included, keeps the recording invariant |
| Recorder.RunKeepsInv | Assets/BakeToBlendShape.cs:130-135 | over any sequence of events the invariant holds at the end, and every asset handed over is well formed |
| Recorder.InitialInv | Assets/BakeToBlendShape.cs:19-21 | the initial fields (no face, Idle, counter 0) satisfy the invariant |
| Recorder.FrameNamesDistinct | Assets/BakeToBlendShape.cs:130-135 | in a well-formed asset the frames are named Shape1, Shape2, … in order and no two names are equal |
| Recorder.StepWhileRecording | Assets/BakeToBlendShape.cs:122-144 | while Recording, an event either keeps the session, with the same base and the old frames as a prefix, or emits a target with that base and prefix and goes Idle |
| Recorder.SessionOnlyGrows | Assets/BakeToBlendShape.cs:108-144 | a run from a Recording state that emits nothing ends Recording, with the base unchanged and the earlier frames as a prefix |
| Recorder.FirstAssetHasSessionBase | Assets/BakeToBlendShape.cs:108-144 | from a Recording state, the first asset a run hands over has the base captured at the start and the frames recorded so far as a prefix of its frames |
| Recorder.CapturingTwiceGivesEqualFrames | Assets/BakeToBlendShape.cs:124-128 | deltas do not compound: two Space presses against the same live mesh add two frames with identical deltas, each live minus base |
| Recorder.FourVertexSession | Assets/BakeToBlendShape.cs:43-144 | a four-vertex mesh appears, Space, vertex 0 moves to (0,0,1), Space, Return: the run hands over the base and one frame "Shape1" with deltas [(0,0,1),0,0,0], and ends Idle with counter 2 |
| FaceBaker.BakeToBlendShape.constructor | Assets/BakeToBlendShape.cs:19-21 | fields start with no display mesh, Idle, counter 0 |
| FaceBaker.BakeToBlendShape.FaceAdded | Assets/BakeToBlendShape.cs:71-78 | the display mesh becomes a new mesh with the anchor's geometry; output mesh and counter unchanged |
| FaceBaker.BakeToBlendShape.FaceUpdated | Assets/BakeToBlendShape.cs:80-93 | no change without a display mesh; otherwise vertices, UVs and triangles are replaced together; output mesh and counter unchanged |
| FaceBaker.BakeToBlendShape.FaceRemoved | Assets/BakeToBlendShape.cs:95-102 | the display mesh becomes absent; output mesh and counter unchanged |
| FaceBaker.BakeToBlendShape.Update | Assets/BakeToBlendShape.cs:43-65 | the key dispatch: the result and the new fields are those of the `Recorder` Update transition, the fields are unchanged on a fault, and the invariant is kept |
| FaceBaker.BakeToBlendShape.StartRecording | Assets/BakeToBlendShape.cs:108-120 | the output mesh gets the display mesh's vertices, UVs and triangles and no frames; counter 1; display unchanged |
| FaceBaker.BakeToBlendShape.AddBlendShape | Assets/BakeToBlendShape.cs:122-136 | faults if and only if the vertex counts differ, and then changes nothing. Otherwise it appends `Shape<count>` at weight 100 with deltas live minus base, raises the counter by 1, and keeps the base, the earlier frames and the display |
| FaceBaker.BakeToBlendShape.FinishRecording | Assets/BakeToBlendShape.cs:138-144 | returns the output mesh (base and frames) for the asset sink, sets the output mesh to absent, keeps the counter |

## Left out

- Starting the AR session and subscribing to the face events (`Start`). This is a native foreign API. The model calls the callback methods directly.
- Drawing the display mesh, and recalculating bounds and normals. These are graphics calls with no state the model observes.
- The face pose written to the component's transform. This is float matrix math in engine helpers. `FaceGeometry` carries no pose.
- Choosing a unique asset path, creating the asset and saving it. This is editor persistence. `FinishRecording` returns the base and frames instead.
- `Destroy` and `OnDestroy`. Destroying a mesh is modelled as setting the field to absent.
- Floating-point coordinates. Vertices and UVs are integers, so subtraction and its inverse are exact.
- Keyboard polling. Each Update receives two booleans, one for each key that went down that frame.
- Engine-side validation in the mesh property setters (UV length, triangle index bounds). The display and base meshes take the arrays as given.
- Meshes are values, not engine objects. Every read or write of a mesh's vertex, UV or triangle array copies it, so no aliasing between the display mesh, the base and `delta` is observable.
- FaceBaker.BakeToBlendShape.AddBlendShape: the counter is an unbounded integer. The 32-bit wrap-around after 2^31 − 1 frames in one session is not modelled.
