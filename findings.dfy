/** Three places where LwjglRenderer, as written, does not do what it
    evidently means to do. Each is modelled here as written, with the input
    that shows the discrepancy; the corrected behaviour is the one the rest
    of the model uses. */
module Findings {
  import opened GL
  import opened StateTracker
  import opened Resources
  import UniformLayout
  import Renderer

  // ---------------------------------------------------------------------
  // setCulling: the BackFace case has no break.

  /** setCulling as written: BackFace falls through into the FrontFace case. */
  function SetCullingAsWritten(s: CullState, c: Culling): (r: Step<CullState>)
    ensures r.state.mode == Some(c)
  {
    if s.mode == Some(c) then Step(s, [])
    else
      match c
      case Disabled =>
        Step(CullState(Some(c), false), if s.enabled then [Disable(CULL_FACE)] else [])
      case BackFace =>
        Step(CullState(Some(c), true), (if s.enabled then [] else [Enable(CULL_FACE)]) + [CullFace(BACK), CullFace(FRONT)])
      case FrontFace =>
        Step(CullState(Some(c), true), (if s.enabled then [] else [Enable(CULL_FACE)]) + [CullFace(FRONT)])
  }

  /** Selecting BackFace ends with glCullFace(GL_FRONT): the front faces are
      culled, not the back faces that were asked for. */
  lemma BackFaceCullsFront(s: CullState)
    requires s.mode != Some(BackFace)
    ensures var cs := SetCullingAsWritten(s, BackFace).commands;
      && |cs| >= 2 && cs[|cs| - 2] == CullFace(BACK) && cs[|cs| - 1] == CullFace(FRONT)
      && cs[|cs| - 1] != CullFace(CulledFace(BackFace))
  {
  }

  /** The fall-through is the only difference from the corrected setCulling. */
  lemma CullingDiffersOnlyOnBackFace(s: CullState, c: Culling)
    ensures SetCullingAsWritten(s, c) == SetCulling(s, c) <==> c != BackFace || s.mode == Some(BackFace)
  {
    if c == BackFace && s.mode != Some(BackFace) {
      var cs := SetCullingAsWritten(s, c).commands;
      assert cs[|cs| - 1] != SetCulling(s, c).commands[|SetCulling(s, c).commands| - 1];
    }
  }

  // ---------------------------------------------------------------------
  // updateUniforms, Matrix3: the stored matrix is cut off by flip().

  /** The scratch FloatBuffer's cursor: its backing store, position and limit. */
  datatype FloatCursor = FloatCursor(contents: seq<Float>, position: nat, limit: nat)

  predicate FloatCursorValid(b: FloatCursor) {
    b.position <= b.limit <= |b.contents|
  }

  /** clear(): position 0, limit at capacity. */
  function ClearFloats(b: FloatCursor): (r: FloatCursor)
    ensures FloatCursorValid(r) && r.contents == b.contents && r.position == 0
  {
    b.(position := 0, limit := |b.contents|)
  }

  /** Matrix3f.get(FloatBuffer): store the 9 floats at the current position,
      leaving the position where it was. */
  function StoreAtPosition(m: seq<Float>, b: FloatCursor): (r: FloatCursor)
    requires FloatCursorValid(b) && b.position + |m| <= |b.contents|
    ensures |r.contents| == |b.contents| && FloatCursorValid(r) && r.position == b.position && r.limit == b.limit
    ensures r.contents[b.position..b.position + |m|] == m
  {
    b.(contents := b.contents[..b.position] + m + b.contents[b.position + |m|..])
  }

  /** flip(): limit at the position, position 0. */
  function FlipFloats(b: FloatCursor): (r: FloatCursor)
    requires FloatCursorValid(b)
    ensures FloatCursorValid(r) && r.position == 0 && r.limit == b.position
  {
    b.(limit := b.position, position := 0)
  }

  /** What glUniformMatrix3fv reads from the buffer: position to limit. */
  function RemainingFloats(b: FloatCursor): seq<Float>
    requires FloatCursorValid(b)
  {
    b.contents[b.position..b.limit]
  }

  /** The Matrix3 case as written: clear, store, flip, upload. */
  function Matrix3Marshal(m: seq<Float>, b: FloatCursor): (r: seq<Float>)
    requires |m| == 9 && |b.contents| >= 9
    ensures |r| == 0
  {
    RemainingFloats(FlipFloats(StoreAtPosition(m, ClearFloats(b))))
  }

  /** As written, every Matrix3 uniform is uploaded with no floats at all. */
  lemma Matrix3UploadsNothing(m: seq<Float>, b: FloatCursor)
    requires |m| == 9 && |b.contents| >= 9
    ensures Matrix3Marshal(m, b) == [] && Matrix3Marshal(m, b) != m
  {
  }

  /** The Matrix3 case corrected as the Matrix3Array case does it: move the
      position past the stored floats before flip(). */
  function Matrix3MarshalFixed(m: seq<Float>, b: FloatCursor): (r: seq<Float>)
    requires |m| == 9 && |b.contents| >= 9
    ensures r == m
  {
    var stored := StoreAtPosition(m, ClearFloats(b));
    assert stored.contents[0..9] == m;
    RemainingFloats(FlipFloats(stored.(position := 9)))
  }

  /** Corrected, the upload carries exactly the matrix, whatever the buffer
      held before; this is the Matrix3 upload UniformUpload describes. */
  lemma Matrix3MarshalFixedUploads(m: seq<Float>, b: FloatCursor, loc: int)
    requires |m| == 9 && |b.contents| >= 9
    ensures Matrix3MarshalFixed(m, b) == m
    ensures UniformLayout.UniformUpload(loc, UMatrix3(m)) == [UniformMatrix3fv(loc, Matrix3MarshalFixed(m, b))]
  {
    var stored := StoreAtPosition(m, ClearFloats(b));
    assert stored.contents[0..9] == m;
  }

  // ---------------------------------------------------------------------
  // setFramebuffer: the static drawBuffers IntBuffer is flipped but never cleared.

  /** The capacity of drawBuffers, in ints (32 << 2 bytes). */
  const DrawBufferCapacity: nat := 32

  /** The drawBuffers cursor: backing store, position and limit. */
  datatype IntCursor = IntCursor(contents: seq<Attachment>, position: nat, limit: nat)

  predicate IntCursorValid(b: IntCursor) {
    b.position <= b.limit <= |b.contents|
  }

  /** The buffer as allocated: empty position, limit at capacity. */
  function FreshDrawBuffer(): (r: IntCursor)
    ensures IntCursorValid(r) && r.position == 0 && r.limit == DrawBufferCapacity
  {
    IntCursor(seq(DrawBufferCapacity, _ => DepthAttachment), 0, DrawBufferCapacity)
  }

  /** put(COLOR_ATTACHMENT0 + i) for i in [i, n): None when a put finds
      position == limit (BufferOverflowException). */
  function PutFrom(b: IntCursor, i: nat, n: nat): (r: Option<IntCursor>)
    requires IntCursorValid(b)
    ensures r.Some? ==> r.value.limit == b.limit && |r.value.contents| == |b.contents|
    ensures r.Some? && i <= n ==> r.value.position == b.position + (n - i)
    decreases n - i
  {
    if i >= n then Some(b)
    else if b.position == b.limit then None
    else PutFrom(b.(contents := b.contents[b.position := ColorAttachment(i)], position := b.position + 1), i + 1, n)
  }

  datatype DrawResult = Overflow | Drawn(buffer: IntCursor, uploaded: seq<Attachment>)

  /** The draw-buffer half of setFramebuffer as written: put n attachments,
      flip, upload what lies between position and limit. */
  function SetDrawBuffersAsWritten(b: IntCursor, n: nat): (r: DrawResult)
    requires IntCursorValid(b)
    ensures r.Drawn? ==> IntCursorValid(r.buffer)
  {
    match PutFrom(b, 0, n)
    case None => Overflow
    case Some(f) =>
      PutFromValid(b, 0, n);
      var flipped := f.(limit := f.position, position := 0);
      Drawn(flipped, flipped.contents[0..flipped.limit])
  }

  /** The same with clear() before the puts. */
  function SetDrawBuffersFixed(b: IntCursor, n: nat): (r: DrawResult)
    requires IntCursorValid(b)
    ensures r.Drawn? <==> n <= |b.contents|
    ensures r.Drawn? ==> r.uploaded == Renderer.ColorAttachments(n) && r.buffer.limit == n
  {
    var c := b.(position := 0, limit := |b.contents|);
    PutFromEffect(c, 0, n);
    SetDrawBuffersAsWritten(c, n)
  }

  lemma {:induction false} PutFromValid(b: IntCursor, i: nat, n: nat)
    requires IntCursorValid(b)
    ensures PutFrom(b, i, n).Some? ==> IntCursorValid(PutFrom(b, i, n).value)
    decreases n - i
  {
    if i < n && b.position < b.limit {
      PutFromValid(b.(contents := b.contents[b.position := ColorAttachment(i)], position := b.position + 1), i + 1, n);
    }
  }

  /** Putting from an index equal to the position succeeds exactly when the
      limit leaves room for all n, and writes COLOR_ATTACHMENT0 + j at j. */
  lemma {:induction false} PutFromEffect(b: IntCursor, i: nat, n: nat)
    requires IntCursorValid(b) && b.position == i <= n
    ensures PutFrom(b, i, n).Some? <==> n <= b.limit
    ensures PutFrom(b, i, n).Some? ==>
      var f := PutFrom(b, i, n).value;
      && f.position == n && f.limit == b.limit && |f.contents| == |b.contents|
      && (forall j :: 0 <= j < i ==> f.contents[j] == b.contents[j])
      && (forall j :: i <= j < n ==> f.contents[j] == ColorAttachment(j))
    decreases n - i
  {
    if i < n && b.position < b.limit {
      PutFromEffect(b.(contents := b.contents[b.position := ColorAttachment(i)], position := b.position + 1), i + 1, n);
    }
  }

  /** As written, the limit left by the previous call caps the next one: a
      buffer whose position is 0 overflows exactly when more attachments
      are put than the limit allows. */
  lemma DrawBuffersOverflowIff(b: IntCursor, n: nat)
    requires IntCursorValid(b) && b.position == 0
    ensures SetDrawBuffersAsWritten(b, n).Overflow? <==> n > b.limit
    ensures SetDrawBuffersAsWritten(b, n).Drawn? ==> SetDrawBuffersAsWritten(b, n).buffer.limit == n
  {
    PutFromEffect(b, 0, n);
  }

  /** The input that shows it: a framebuffer with no colour target, then one
      with a single target, overflows the buffer on the second call. */
  lemma StaleDrawBufferLimit()
    ensures var first := SetDrawBuffersAsWritten(FreshDrawBuffer(), 0);
      first.Drawn? && first.buffer.position == 0 && SetDrawBuffersAsWritten(first.buffer, 1) == Overflow
  {
    var first := SetDrawBuffersAsWritten(FreshDrawBuffer(), 0);
    assert first.buffer.limit == 0;
    DrawBuffersOverflowIff(first.buffer, 1);
  }

  /** Corrected, any call with at most 32 colour targets uploads exactly
      COLOR_ATTACHMENT0 .. COLOR_ATTACHMENT0 + n - 1, whatever earlier calls
      left in the buffer; this is the list SetDrawBuffers issues. */
  lemma DrawBuffersFixedUploads(b: IntCursor, n: nat)
    requires IntCursorValid(b) && |b.contents| == DrawBufferCapacity && n <= DrawBufferCapacity
    ensures SetDrawBuffersFixed(b, n).Drawn?
    ensures SetDrawBuffersFixed(b, n).uploaded == Renderer.ColorAttachments(n)
    ensures |SetDrawBuffersFixed(b, n).buffer.contents| == DrawBufferCapacity
  {
    var c := b.(position := 0, limit := |b.contents|);
    PutFromEffect(c, 0, n);
    var r := SetDrawBuffersFixed(b, n);
    assert r.uploaded == Renderer.ColorAttachments(n);
  }
}
