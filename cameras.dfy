/**
 * The camera's command-buffer registry, as far as the effects use it. `AddCommandBuffer`
 * adds one registration of a buffer at a camera event; `RemoveCommandBuffer` removes
 * every registration of that buffer at that event. A buffer registered twice is executed
 * twice, so the registry is a multiset.
 */
module Cameras {

  /** The camera events the effects attach buffers to. */
  datatype CameraEvent = BeforeForwardOpaque | BeforeImageEffectsOpaque | BeforeImageEffects

  /** The command buffers the effects own: depth-reject iris, effect, mask objects, image iris. */
  datatype CommandBuffer = ZReject | Effect | Mask | Iris

  datatype Registration = Registration(evt: CameraEvent, buffer: CommandBuffer)

  /** `Camera.AddCommandBuffer`: one more registration of `buffer` at `evt`. */
  function Added(reg: multiset<Registration>, evt: CameraEvent, buffer: CommandBuffer): (r: multiset<Registration>)
    ensures r[Registration(evt, buffer)] == reg[Registration(evt, buffer)] + 1
    ensures forall x :: x != Registration(evt, buffer) ==> r[x] == reg[x]
  {
    reg + multiset{Registration(evt, buffer)}
  }

  /** `Camera.RemoveCommandBuffer`: no registration of `buffer` at `evt` is left. */
  function Removed(reg: multiset<Registration>, evt: CameraEvent, buffer: CommandBuffer): (r: multiset<Registration>)
    ensures r[Registration(evt, buffer)] == 0
    ensures forall x :: x != Registration(evt, buffer) ==> r[x] == reg[x]
  {
    reg[Registration(evt, buffer) := 0]
  }

  /** Removing after adding leaves no registration of that buffer, whatever was there before. */
  lemma RemovedUndoesAdded(reg: multiset<Registration>, evt: CameraEvent, buffer: CommandBuffer)
    ensures Removed(Added(reg, evt, buffer), evt, buffer) == Removed(reg, evt, buffer)
    ensures reg[Registration(evt, buffer)] == 0 ==> Removed(Added(reg, evt, buffer), evt, buffer) == reg
  {
    var a, b := Removed(Added(reg, evt, buffer), evt, buffer), Removed(reg, evt, buffer);
    forall x ensures a[x] == b[x] {
    }
    assert a == b;
    if reg[Registration(evt, buffer)] == 0 {
      forall x ensures b[x] == reg[x] {
      }
      assert b == reg;
    }
  }
}
