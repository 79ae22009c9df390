/** What renderMesh does with one mesh, as pure functions: the attribute
    loop (one vertex buffer per Position/Uv/Color, created with a full
    upload the first time, partially re-uploaded while the mesh is dirty),
    the index buffer, and the draw call whose index type and byte offset
    follow the index buffer's element width. */
module MeshUpload {
  import opened GL
  import opened Errors
  import opened Resources
  import opened LwjglUtils

  /** The attribute kinds that own a vertex buffer (vboPos, vboUv, vboColor). */
  predicate HasBuffer(a: Attribute) {
    a == Position || a == Uv || a == Color
  }

  /** What the attribute loop reads and changes for one mesh: the mesh's
      entries in the three vertex-buffer caches (vboPos, vboUv, vboColor),
      its host data, and the driver's next fresh name. */
  datatype VboView = VboView(pos: Option<Handle>, uv: Option<Handle>, color: Option<Handle>,
                             data: map<Attribute, FloatData>, next: Handle)

  /** The cached buffer of a kind (a kind without a buffer has none). */
  function Slot(v: VboView, a: Attribute): Option<Handle> {
    match a
    case Position => v.pos
    case Uv => v.uv
    case Color => v.color
    case Normal => None
  }

  /** The view with buffer `h` cached for kind `a`. */
  function Fill(v: VboView, a: Attribute, h: Handle): VboView {
    match a
    case Position => v.(pos := Some(h))
    case Uv => v.(uv := Some(h))
    case Color => v.(color := Some(h))
    case Normal => v
  }

  /** Cache entries are only ever added, never changed. */
  ghost predicate SlotsGrow(v: VboView, w: VboView) {
    forall a :: Slot(v, a).Some? ==> Slot(w, a) == Slot(v, a)
  }

  /** The attribute loop after some iterations: the view, the commands so far,
      whether an exception was thrown, and how far stats.vboCount went up. */
  datatype Pass = Pass(view: VboView, commands: seq<Command>, outcome: Outcome, count: nat)

  /** Enabling an attribute at its fixed slot with its component count. */
  function BindAttribute(a: Attribute): seq<Command> {
    [EnableVertexAttribArray(Id(a)), VertexAttribPointer(Id(a), Size(a))]
  }

  /** The buffer half of one iteration for a kind that owns a vertex buffer:
      create and fully upload it on first sight, re-upload a dirty mesh's
      data later; a null buffer throws where the source dereferences it. */
  function BufferStep(v: VboView, a: Attribute, keepData: bool, dirty: bool, usage: MeshUsage): Pass {
    if Slot(v, a).None? then
      var h := v.next;
      var created := Fill(v, a, h).(next := h + 1);
      if a !in v.data then
        Pass(created, [Generate(BufferObject, h), BindBuffer(ARRAY_BUFFER, h)], Thrown(NullBuffer), 0)
      else
        var kept := if keepData then created else created.(data := v.data - {a});
        Pass(kept, [Generate(BufferObject, h), BindBuffer(ARRAY_BUFFER, h),
                    BufferData(ARRAY_BUFFER, Vertices(v.data[a]), Usage2int(usage))], Done, 0)
    else
      var h := Slot(v, a).value;
      if !dirty then Pass(v, [BindBuffer(ARRAY_BUFFER, h)], Done, 0)
      else if a !in v.data then Pass(v, [BindBuffer(ARRAY_BUFFER, h)], Thrown(NullBuffer), 0)
      else
        var buf := v.data[a];
        Pass(v, [BindBuffer(ARRAY_BUFFER, h), BufferSubData(ARRAY_BUFFER, Shl(buf.position, 2), Vertices(buf))], Done, 0)
  }

  /** One iteration of the attribute loop: the buffer half for buffered
      kinds, then (unless that threw) the attribute is enabled and counted. */
  function AttributeStep(v: VboView, a: Attribute, keepData: bool, dirty: bool, usage: MeshUsage): Pass {
    if !HasBuffer(a) then Pass(v, BindAttribute(a), Done, 1)
    else
      var b := BufferStep(v, a, keepData, dirty, usage);
      if b.outcome.Thrown? then b
      else Pass(b.view, b.commands + BindAttribute(a), Done, 1)
  }

  /** The attribute loop after one more attribute: nothing more happens
      once an exception was thrown. */
  function Extend(prev: Pass, a: Attribute, keepData: bool, dirty: bool, usage: MeshUsage): Pass {
    if prev.outcome.Thrown? then prev
    else
      var s := AttributeStep(prev.view, a, keepData, dirty, usage);
      Pass(s.view, prev.commands + s.commands, s.outcome, prev.count + s.count)
  }

  /** The attribute loop over `attrs`, stopping at the first exception. */
  function AttributePass(v: VboView, attrs: seq<Attribute>, keepData: bool, dirty: bool, usage: MeshUsage): Pass {
    if attrs == [] then Pass(v, [], Done, 0)
    else Extend(AttributePass(v, attrs[..|attrs| - 1], keepData, dirty, usage), attrs[|attrs| - 1], keepData, dirty, usage)
  }

  /** One more iteration extends the pass over a prefix by one step. */
  lemma AttributePassSnoc(v: VboView, attrs: seq<Attribute>, i: nat, keepData: bool, dirty: bool, usage: MeshUsage)
    requires i < |attrs|
    ensures AttributePass(v, attrs[..i + 1], keepData, dirty, usage) ==
      Extend(AttributePass(v, attrs[..i], keepData, dirty, usage), attrs[i], keepData, dirty, usage)
  {
    assert attrs[..i + 1][..i] == attrs[..i];
  }

  /** The buffer half on its own: it counts nothing, issues one to three
      calls, throws only NullBuffer for missing host data, touches no other
      kind's cache entry, binds a cached buffer and names a new one with the
      next fresh name. */
  lemma BufferStepShape(v: VboView, a: Attribute, keepData: bool, dirty: bool, usage: MeshUsage)
    ensures var r := BufferStep(v, a, keepData, dirty, usage);
      && r.count == 0 && 1 <= |r.commands| <= 3
      && (r.outcome.Thrown? ==> r.outcome == Thrown(NullBuffer) && a !in v.data)
      && (forall b :: b != a ==> Slot(r.view, b) == Slot(v, b))
      && (Slot(v, a).Some? ==> r.view == v && r.commands[0] == BindBuffer(ARRAY_BUFFER, Slot(v, a).value))
      && (HasBuffer(a) && Slot(v, a).None? ==>
            Slot(r.view, a) == Some(v.next) && r.view.next == v.next + 1 && r.commands[0] == Generate(BufferObject, v.next))
  {
  }

  /** Extending a pass only appends commands and adds at most one to the
      count; a pass that has thrown stays as it is. */
  lemma ExtendGrows(prev: Pass, a: Attribute, keepData: bool, dirty: bool, usage: MeshUsage)
    ensures var r := Extend(prev, a, keepData, dirty, usage);
      && (prev.outcome.Thrown? ==> r == prev)
      && prev.commands <= r.commands && prev.count <= r.count <= prev.count + 1
  {
    AttributeStepCount(prev.view, a, keepData, dirty, usage);
  }

  /** The only exception the attribute loop throws is the null host buffer. */
  lemma {:induction false} AttributePassThrowsNull(v: VboView, attrs: seq<Attribute>, keepData: bool, dirty: bool, usage: MeshUsage)
    ensures var p := AttributePass(v, attrs, keepData, dirty, usage);
      p.outcome.Thrown? ==> p.outcome == Thrown(NullBuffer)
  {
    if attrs != [] {
      var init := attrs[..|attrs| - 1];
      AttributePassThrowsNull(v, init, keepData, dirty, usage);
      var prev := AttributePass(v, init, keepData, dirty, usage);
      if prev.outcome.Done? {
        BufferStepShape(prev.view, attrs[|attrs| - 1], keepData, dirty, usage);
      }
    }
  }

  lemma AttributeStepCount(v: VboView, a: Attribute, keepData: bool, dirty: bool, usage: MeshUsage)
    ensures var s := AttributeStep(v, a, keepData, dirty, usage);
      s.count == if s.outcome.Done? then 1 else 0
  {
  }

  /** Once an iteration throws, the rest of the attributes are not looked at. */
  lemma {:induction false} AttributePassAfterThrow(v: VboView, attrs: seq<Attribute>, n: nat, keepData: bool, dirty: bool, usage: MeshUsage)
    requires n <= |attrs| && AttributePass(v, attrs[..n], keepData, dirty, usage).outcome.Thrown?
    ensures AttributePass(v, attrs, keepData, dirty, usage) == AttributePass(v, attrs[..n], keepData, dirty, usage)
    decreases |attrs|
  {
    if n < |attrs| {
      var init := attrs[..|attrs| - 1];
      assert init[..n] == attrs[..n];
      AttributePassAfterThrow(v, init, n, keepData, dirty, usage);
    } else {
      assert attrs[..n] == attrs;
    }
  }

  /** One attribute: first sight of a buffered kind allocates exactly one fresh
      name and uploads the full buffer; a later sight of a dirty mesh
      re-uploads from byte offset position*4; a clean, cached one only binds;
      a kind without a buffer (Normal) is only enabled. Every completed
      iteration adds one to vboCount. */
  lemma AttributeStepEffect(v: VboView, a: Attribute, keepData: bool, dirty: bool, usage: MeshUsage)
    ensures var s := AttributeStep(v, a, keepData, dirty, usage);
      && (s.outcome.Done? <==> s.count == 1)
      && (s.outcome.Done? ==> s.commands[|s.commands| - 2..] == BindAttribute(a))
      && (!HasBuffer(a) ==> s.commands == BindAttribute(a) && s.view == v && s.outcome.Done?)
      && (HasBuffer(a) && Slot(v, a).None? ==>
            s.view.next == v.next + 1 && Slot(s.view, a) == Some(v.next) &&
            (forall b :: b != a ==> Slot(s.view, b) == Slot(v, b)) &&
            s.commands[0] == Generate(BufferObject, v.next) &&
            (s.outcome.Done? <==> a in v.data) &&
            (a in v.data ==> s.commands[2] == BufferData(ARRAY_BUFFER, Vertices(v.data[a]), Usage2int(usage))) &&
            (a in v.data && !keepData ==> a !in s.view.data))
      && (HasBuffer(a) && Slot(v, a).Some? ==>
            s.view == v && s.commands[0] == BindBuffer(ARRAY_BUFFER, Slot(v, a).value) &&
            (dirty && a in v.data ==>
              s.commands[1] == BufferSubData(ARRAY_BUFFER, Shl(v.data[a].position, 2), Vertices(v.data[a]))) &&
            (s.outcome.Done? <==> !dirty || a in v.data))
      && (s.outcome.Thrown? ==> s.outcome.failure == NullBuffer)
  {
    if HasBuffer(a) && Slot(v, a).None? {
      StepCreates(v, a, keepData, dirty, usage);
    } else if HasBuffer(a) {
      StepReuses(v, a, keepData, dirty, usage);
    }
  }

  /** First sight of a buffered kind. */
  lemma StepCreates(v: VboView, a: Attribute, keepData: bool, dirty: bool, usage: MeshUsage)
    requires HasBuffer(a) && Slot(v, a).None?
    ensures var s := AttributeStep(v, a, keepData, dirty, usage);
      && (s.outcome.Done? <==> s.count == 1)
      && (s.outcome.Done? ==> |s.commands| == 5 && s.commands[3..] == BindAttribute(a))
      && s.view.next == v.next + 1 && Slot(s.view, a) == Some(v.next)
      && (forall b :: b != a ==> Slot(s.view, b) == Slot(v, b))
      && s.commands[0] == Generate(BufferObject, v.next)
      && (s.outcome.Done? <==> a in v.data)
      && (a in v.data ==> s.commands[2] == BufferData(ARRAY_BUFFER, Vertices(v.data[a]), Usage2int(usage)))
      && (a in v.data && !keepData ==> a !in s.view.data)
      && (s.outcome.Thrown? ==> s.outcome.failure == NullBuffer)
  {
    var b := BufferStep(v, a, keepData, dirty, usage);
    if a in v.data {
      assert |b.commands| == 3;
    }
  }

  /** A later sight of a buffered kind. */
  lemma StepReuses(v: VboView, a: Attribute, keepData: bool, dirty: bool, usage: MeshUsage)
    requires HasBuffer(a) && Slot(v, a).Some?
    ensures var s := AttributeStep(v, a, keepData, dirty, usage);
      && (s.outcome.Done? <==> s.count == 1)
      && (s.outcome.Done? ==> |s.commands| >= 2 && s.commands[|s.commands| - 2..] == BindAttribute(a))
      && s.view == v && s.commands[0] == BindBuffer(ARRAY_BUFFER, Slot(v, a).value)
      && (dirty && a in v.data ==>
            s.commands[1] == BufferSubData(ARRAY_BUFFER, Shl(v.data[a].position, 2), Vertices(v.data[a])))
      && (s.outcome.Done? <==> !dirty || a in v.data)
      && (s.outcome.Thrown? ==> s.outcome.failure == NullBuffer)
  {
    var b := BufferStep(v, a, keepData, dirty, usage);
    if dirty && a in v.data {
      assert |b.commands| == 2;
    } else {
      assert |b.commands| == 1;
    }
  }

  /** The loop only adds cache entries and never hands out a name twice. */
  lemma {:induction false} AttributePassGrows(v: VboView, attrs: seq<Attribute>, keepData: bool, dirty: bool, usage: MeshUsage)
    ensures var p := AttributePass(v, attrs, keepData, dirty, usage);
      SlotsGrow(v, p.view) && v.next <= p.view.next &&
      (forall a :: Slot(p.view, a).Some? && Slot(v, a).None? ==> v.next <= Slot(p.view, a).value < p.view.next)
  {
    if attrs != [] {
      var init := attrs[..|attrs| - 1];
      AttributePassGrows(v, init, keepData, dirty, usage);
      var prev := AttributePass(v, init, keepData, dirty, usage);
      if prev.outcome.Done? {
        AttributeStepGrows(prev.view, attrs[|attrs| - 1], keepData, dirty, usage);
      }
    }
  }

  /** One step adds at most the entry of its own kind, named with the next fresh name. */
  lemma AttributeStepGrows(v: VboView, a: Attribute, keepData: bool, dirty: bool, usage: MeshUsage)
    ensures var s := AttributeStep(v, a, keepData, dirty, usage);
      SlotsGrow(v, s.view) && v.next <= s.view.next &&
      (forall b :: Slot(s.view, b).Some? && Slot(v, b).None? ==> b == a && Slot(s.view, b) == Some(v.next) && s.view.next == v.next + 1)
  {
  }

  /** A completed step leaves a buffer cached for its own kind. */
  lemma AttributeStepFills(v: VboView, a: Attribute, keepData: bool, dirty: bool, usage: MeshUsage)
    ensures var s := AttributeStep(v, a, keepData, dirty, usage);
      s.outcome.Done? && HasBuffer(a) ==> Slot(s.view, a).Some?
  {
  }

  /** A completed loop counts every attribute of the program exactly once and
      leaves a vertex buffer cached for every buffered kind it met. */
  lemma {:induction false} AttributePassCounts(v: VboView, attrs: seq<Attribute>, keepData: bool, dirty: bool, usage: MeshUsage)
    ensures var p := AttributePass(v, attrs, keepData, dirty, usage);
      (p.outcome.Done? ==> p.count == |attrs|) &&
      (p.outcome.Done? ==> forall a :: a in attrs && HasBuffer(a) ==> Slot(p.view, a).Some?) &&
      p.count <= |attrs|
  {
    if attrs != [] {
      AttributePassCounts(v, attrs[..|attrs| - 1], keepData, dirty, usage);
    }
    AttributePassFills(v, attrs, keepData, dirty, usage);
  }

  /** A completed loop leaves a vertex buffer cached for every buffered kind it met. */
  lemma {:induction false} AttributePassFills(v: VboView, attrs: seq<Attribute>, keepData: bool, dirty: bool, usage: MeshUsage)
    ensures var p := AttributePass(v, attrs, keepData, dirty, usage);
      p.outcome.Done? ==> forall a :: a in attrs && HasBuffer(a) ==> Slot(p.view, a).Some?
  {
    if attrs != [] {
      var init := attrs[..|attrs| - 1];
      AttributePassFills(v, init, keepData, dirty, usage);
      var prev := AttributePass(v, init, keepData, dirty, usage);
      if prev.outcome.Done? {
        var s := AttributeStep(prev.view, attrs[|attrs| - 1], keepData, dirty, usage);
        AttributeStepGrows(prev.view, attrs[|attrs| - 1], keepData, dirty, usage);
        AttributeStepFills(prev.view, attrs[|attrs| - 1], keepData, dirty, usage);
        if s.outcome.Done? {
          forall a | a in attrs && HasBuffer(a) ensures Slot(s.view, a).Some? {
            if a != attrs[|attrs| - 1] {
              assert a in init;
            }
          }
        }
      }
    }
  }

  /** GL index type of an element width. */
  function IndexTypeOf(w: IndexWidth): (t: IndexType)
    ensures t == UNSIGNED_INT <==> w == Int32
    ensures t == UNSIGNED_SHORT <==> w == Int16
    ensures t == UNSIGNED_BYTE <==> w == Int8
  {
    match w
    case Int32 => UNSIGNED_INT
    case Int16 => UNSIGNED_SHORT
    case Int8 => UNSIGNED_BYTE
  }

  /** An element offset scaled to bytes, with Java's 32-bit shift. */
  function ByteOffset(w: IndexWidth, elements: int): int {
    match w
    case Int32 => Shl(elements, 2)
    case Int16 => Shl(elements, 1)
    case Int8 => elements
  }

  /** Within the int range the byte offset is the element offset times the
      element width in bytes; beyond it, Java's shift wraps. */
  lemma ByteOffsetScales(w: IndexWidth, elements: int)
    ensures -0x2000_0000 <= elements < 0x2000_0000 ==>
      ByteOffset(w, elements) == elements * (match w case Int32 => 4 case Int16 => 2 case Int8 => 1)
    ensures -0x8000_0000 <= ByteOffset(w, elements) < 0x8000_0000 || w == Int8
  {
    assert Pow2(2) == 4 && Pow2(1) == 2;
  }

  /** The index-buffer commands, given the mesh's cached index buffer name
      (None: not yet cached, and `newName` is allocated). */
  function IndexCommands(cached: Option<Handle>, newName: Handle, indices: Option<IndexData>, dirty: bool, usage: MeshUsage): seq<Command> {
    if cached.None? then
      [Generate(BufferObject, newName), BindBuffer(ELEMENT_ARRAY_BUFFER, newName)]
        + (if indices.Some? then [BufferData(ELEMENT_ARRAY_BUFFER, Indices(indices.value), Usage2int(usage))] else [])
    else
      [BindBuffer(ELEMENT_ARRAY_BUFFER, cached.value)]
        + (if dirty && indices.Some? then
             [BufferSubData(ELEMENT_ARRAY_BUFFER, ByteOffset(indices.value.width, indices.value.position), Indices(indices.value))]
           else [])
  }

  /** The draw call; an index buffer of no recognised width draws nothing. */
  function DrawCommands(prim: Primitive, offset: int, count: int, indices: Option<IndexData>): seq<Command> {
    if indices.None? then []
    else [DrawElements(Primitive2int(prim), count, IndexTypeOf(indices.value.width), ByteOffset(indices.value.width, offset))]
  }

  /** The index buffer bound is the cached one, or else a newly generated
      name; data is sent only to a new buffer or, while dirty, to a cached
      one, and only when the mesh has indices. */
  lemma IndexCommandsShape(cached: Option<Handle>, newName: Handle, indices: Option<IndexData>, dirty: bool, usage: MeshUsage)
    ensures var r := IndexCommands(cached, newName, indices, dirty, usage);
      && BindBuffer(ELEMENT_ARRAY_BUFFER, if cached.Some? then cached.value else newName) in r
      && (Generate(BufferObject, newName) in r <==> cached.None?)
      && |r| == (if cached.None? then 2 else 1) + (if indices.Some? && (cached.None? || dirty) then 1 else 0)
  {
  }

  /** At most one draw call, with the mesh's primitive and count, and none
      without an index buffer. */
  lemma DrawCommandsShape(prim: Primitive, offset: int, count: int, indices: Option<IndexData>)
    ensures var r := DrawCommands(prim, offset, count, indices);
      && |r| == (if indices.Some? then 1 else 0)
      && forall c :: c in r ==> c.DrawElements? && c.mode == Primitive2int(prim) && c.count == count
  {
  }

  /** The draw encodes the element width: int indices are drawn as
      UNSIGNED_INT at offset*4 bytes, short as UNSIGNED_SHORT at offset*2,
      byte as UNSIGNED_BYTE at offset (for offsets whose byte value fits in
      an int), with the mesh's count and primitive. */
  lemma DrawFollowsWidth(prim: Primitive, offset: int, count: int, ix: IndexData)
    requires 0 <= offset && offset * 4 < 0x8000_0000
    ensures var d := DrawCommands(prim, offset, count, Some(ix));
      |d| == 1 && d[0].mode == Primitive2int(prim) && d[0].count == count &&
      (ix.width == Int32 ==> d[0].indexType == UNSIGNED_INT && d[0].byteOffset == 4 * offset) &&
      (ix.width == Int16 ==> d[0].indexType == UNSIGNED_SHORT && d[0].byteOffset == 2 * offset) &&
      (ix.width == Int8 ==> d[0].indexType == UNSIGNED_BYTE && d[0].byteOffset == offset)
  {
    assert Pow2(2) == 4 && Pow2(1) == 2;
  }

  /** The index type is a function of the width alone, and distinct widths get
      distinct types: a 16-bit mesh is drawn through the 16-bit path however
      often it was re-uploaded. */
  lemma IndexTypeInjective(w1: IndexWidth, w2: IndexWidth)
    ensures IndexTypeOf(w1) == IndexTypeOf(w2) <==> w1 == w2
  {
  }
}
