/** LwjglRenderer: the state tracker, the handle caches, the dirty-flag
    upload engine and the draw pipeline, over the command-log driver of
    module GL. */
module Renderer {
  import opened GL
  import opened Errors
  import opened Resources
  import opened StateTracker
  import opened LwjglUtils
  import opened UniformLayout
  import opened MeshUpload

  /** The per-frame counters and the cache sizes snapshotted at beginFrame. */
  datatype RenderStats = RenderStats(
    shaderSwitch: int, textureSwitch: int, fboSwitch: int, vboCount: int, vertices: int,
    allocatedEbos: int, allocatedVbos: int, allocatedPrograms: int,
    allocatedFramebuffers: int, allocatedTextures: int)

  const ZeroStats := RenderStats(0, 0, 0, 0, 0, 0, 0, 0, 0, 0)

  /** Re-specifying a texture's pixels: storage and data, then the mip chain. */
  function TexImageCommands(format: TextureFormat, width: int, height: int, data: Option<seq<bv8>>): (r: seq<Command>)
    ensures |r| == 2 && r[0].TexImage2D? && r[0].pixels == data && r[1] == GenerateMipmap
    ensures NoFramebufferOps(r)
  {
    [TexImage2D(TextureFormat2int(format), width, height, data), GenerateMipmap]
  }

  /** Re-applying a texture's filter and wrap parameters. */
  function TexParamCommands(min: TextureFilter, mag: TextureFilter, wrapU: TextureWrap, wrapV: TextureWrap): (r: seq<Command>)
    ensures |r| == 4 && NoFramebufferOps(r)
    ensures forall c :: c in r ==> c.TexParameter?
    ensures (set c | c in r :: c.param) == {MAG_FILTER, MIN_FILTER, WRAP_S, WRAP_T}
  {
    [TexParameter(MAG_FILTER, Filter2int(mag)), TexParameter(MIN_FILTER, Filter2int(min)),
     TexParameter(WRAP_S, Wrap2int(wrapU)), TexParameter(WRAP_T, Wrap2int(wrapV))]
  }

  /** Binding every attribute kind to its fixed slot, in declaration order. */
  function BindLocations(program: Handle, attrs: seq<Attribute>): seq<Command> {
    if attrs == [] then []
    else BindLocations(program, attrs[..|attrs| - 1])
           + [BindAttribLocation(program, Id(attrs[|attrs| - 1]), Name(attrs[|attrs| - 1]))]
  }

  /** Creating a program from two compiled stages: attach both, bind the
      attribute locations, then link. */
  function ProgramCommands(program: Handle, vert: Handle, frag: Handle): seq<Command> {
    [Generate(ProgramObject, program), AttachShader(program, vert), AttachShader(program, frag)]
      + BindLocations(program, AllAttributes) + [LinkProgram(program)]
  }

  /** One location binding per attribute, each for its own slot and name, and no link among them. */
  lemma {:induction false} BindLocationsCover(program: Handle, attrs: seq<Attribute>)
    ensures |BindLocations(program, attrs)| == |attrs|
    ensures forall a :: a in attrs ==> BindAttribLocation(program, Id(a), Name(a)) in BindLocations(program, attrs)
    ensures LinkProgram(program) !in BindLocations(program, attrs)
  {
    if attrs != [] {
      var init := attrs[..|attrs| - 1];
      BindLocationsCover(program, init);
      forall a | a in attrs ensures BindAttribLocation(program, Id(a), Name(a)) in BindLocations(program, attrs) {
        if a != attrs[|attrs| - 1] {
          assert a in init;
        }
      }
    }
  }

  /** Every Attribute value gets its location bound before the program is
      linked: the link is the last command and no binding follows it. */
  lemma ProgramBindsBeforeLink(program: Handle, vert: Handle, frag: Handle)
    ensures var cs := ProgramCommands(program, vert, frag);
      && cs[|cs| - 1] == LinkProgram(program)
      && LinkProgram(program) !in cs[..|cs| - 1]
      && forall a: Attribute :: BindAttribLocation(program, Id(a), Name(a)) in cs[..|cs| - 1]
  {
    BindLocationsCover(program, AllAttributes);
    var cs := ProgramCommands(program, vert, frag);
    var prefix := [Generate(ProgramObject, program), AttachShader(program, vert), AttachShader(program, frag)]
      + BindLocations(program, AllAttributes);
    assert cs[..|cs| - 1] == prefix;
    forall a: Attribute ensures BindAttribLocation(program, Id(a), Name(a)) in prefix {
      assert AllAttributes[Id(a)] == a;
    }
  }

  /** The attribute-location loop of program creation. */
  method BindAllLocations(gl: Context, program: Handle)
    modifies gl`log
    ensures gl.log == old(gl.log) + BindLocations(program, AllAttributes)
  {
    var attrs := AllAttributes;
    var i := 0;
    while i < |attrs|
      invariant 0 <= i <= |attrs|
      invariant gl.log == old(gl.log) + BindLocations(program, attrs[..i])
    {
      assert attrs[..i + 1][..i] == attrs[..i];
      gl.Emit(BindAttribLocation(program, Id(attrs[i]), Name(attrs[i])));
      i := i + 1;
    }
    assert attrs[..i] == AllAttributes;
  }

  /** COLOR_ATTACHMENT0 .. COLOR_ATTACHMENT0 + n - 1. */
  function ColorAttachments(n: nat): (r: seq<Attachment>)
    ensures |r| == n && forall i :: 0 <= i < n ==> r[i] == ColorAttachment(i)
  {
    seq(n, i => ColorAttachment(i))
  }

  /** The framebuffer-level calls: binds, attachments, completeness checks and draw-buffer lists. */
  predicate FramebufferOp(c: Command) {
    c.BindFramebuffer? || c.FramebufferTexture2D? || c.CheckFramebufferStatus? || c.DrawBuffers?
  }

  /** The framebuffer-level calls of `seg`, in the order they were issued. */
  function FramebufferOps(seg: seq<Command>): (r: seq<Command>)
    ensures |r| <= |seg|
  {
    if seg == [] then []
    else FramebufferOps(seg[..|seg| - 1]) + (if FramebufferOp(seg[|seg| - 1]) then [seg[|seg| - 1]] else [])
  }

  /** FramebufferOps keeps exactly the framebuffer-level calls of `seg`. */
  lemma {:induction false} FramebufferOpsMembers(seg: seq<Command>)
    ensures forall c :: c in FramebufferOps(seg) <==> c in seg && FramebufferOp(c)
    decreases |seg|
  {
    if seg != [] {
      var init := seg[..|seg| - 1];
      FramebufferOpsMembers(init);
      assert seg == init + [seg[|seg| - 1]];
    }
  }

  /** `seg` issues no framebuffer-level call at all. */
  ghost predicate NoFramebufferOps(seg: seq<Command>) {
    forall c :: c in seg ==> !FramebufferOp(c)
  }

  lemma {:induction false} FramebufferOpsAppend(a: seq<Command>, b: seq<Command>)
    ensures FramebufferOps(a + b) == FramebufferOps(a) + FramebufferOps(b)
    decreases |b|
  {
    if b == [] {
      assert a + b == a;
    } else {
      var init := b[..|b| - 1];
      assert (a + b)[..|a + b| - 1] == a + init;
      FramebufferOpsAppend(a, init);
    }
  }

  lemma {:induction false} FramebufferOpsNone(seg: seq<Command>)
    requires NoFramebufferOps(seg)
    ensures FramebufferOps(seg) == []
    decreases |seg|
  {
    if seg != [] {
      assert seg[|seg| - 1] in seg;
      FramebufferOpsNone(seg[..|seg| - 1]);
    }
  }

  /** The attachments of a rebuild's colour pass: target i at
      COLOR_ATTACHMENT0 + i, under its GL name. */
  function ColorOps(targets: seq<Texture>, names: map<Texture, Handle>): (r: seq<Command>)
    requires forall t :: t in targets ==> t in names
    ensures |r| == |targets|
  {
    if targets == [] then []
    else
      var init := targets[..|targets| - 1];
      assert forall t :: t in init ==> t in targets;
      ColorOps(init, names) + [FramebufferTexture2D(ColorAttachment(|targets| - 1), names[targets[|targets| - 1]])]
  }

  /** Colour target i is attached at COLOR_ATTACHMENT0 + i, under its GL name. */
  lemma {:induction false} ColorOpsAt(targets: seq<Texture>, names: map<Texture, Handle>)
    requires forall t :: t in targets ==> t in names
    ensures forall i :: 0 <= i < |targets| ==>
      ColorOps(targets, names)[i] == FramebufferTexture2D(ColorAttachment(i), names[targets[i]])
    decreases |targets|
  {
    if targets != [] {
      var init := targets[..|targets| - 1];
      assert forall t :: t in init ==> t in targets;
      ColorOpsAt(init, names);
    }
  }

  /** The attachment of a rebuild's depth pass, if there is a depth target. */
  function DepthOps(depth: Texture?, names: map<Texture, Handle>): (r: seq<Command>)
    requires depth != null ==> depth in names
    ensures depth == null <==> r == []
    ensures depth != null ==> r == [FramebufferTexture2D(DepthAttachment, names[depth])]
  {
    if depth == null then [] else [FramebufferTexture2D(DepthAttachment, names[depth])]
  }

  /** Every target has a GL name in `names`. */
  ghost predicate Named(targets: seq<Texture>, depth: Texture?, names: map<Texture, Handle>) {
    (forall t :: t in targets ==> t in names) && (depth != null ==> depth in names)
  }

  /** Names that stay the same give the same attachments. */
  lemma ColorOpsGrows(targets: seq<Texture>, names: map<Texture, Handle>, names2: map<Texture, Handle>)
    requires Grows(names, names2) && forall t :: t in targets ==> t in names
    ensures forall t :: t in targets ==> t in names2
    ensures ColorOps(targets, names) == ColorOps(targets, names2)
  {
  }

  /** The framebuffer-level calls of `seg` are exactly the colour attachments of `targets`, in order. */
  ghost predicate ColorsAttached(targets: seq<Texture>, names: map<Texture, Handle>, seg: seq<Command>) {
    (forall t :: t in targets ==> t in names) && FramebufferOps(seg) == ColorOps(targets, names)
  }

  /** The framebuffer-level calls of `seg` are exactly the depth attachment, if any. */
  ghost predicate DepthAttached(depth: Texture?, names: map<Texture, Handle>, seg: seq<Command>) {
    (depth != null ==> depth in names) && FramebufferOps(seg) == DepthOps(depth, names)
  }

  /** The tail of a log from position `k` splits where a shorter prefix `a` of it ends. */
  lemma SliceSplit(a: seq<Command>, b: seq<Command>, k: nat)
    requires k <= |a| && a <= b
    ensures b[k..] == a[k..] + b[|a|..]
  {
  }

  /** Two stretches of texture work in a row are texture work. */
  lemma NoFramebufferOpsTrans(a: seq<Command>, b: seq<Command>, c: seq<Command>)
    requires a <= b <= c && NoFramebufferOps(b[|a|..]) && NoFramebufferOps(c[|b|..])
    ensures NoFramebufferOps(c[|a|..])
  {
    assert c[|a|..] == b[|a|..] + c[|b|..];
  }

  /** A log `m` that extended `a` with texture work only, then issued `c`:
      from position `k`, its framebuffer-level calls are those of `a` and then `c`. */
  lemma OpsSnoc(a: seq<Command>, m: seq<Command>, k: nat, c: Command)
    requires k <= |a| && a <= m && NoFramebufferOps(m[|a|..]) && FramebufferOp(c)
    ensures FramebufferOps((m + [c])[k..]) == FramebufferOps(a[k..]) + [c]
  {
    assert (m + [c])[k..] == a[k..] + m[|a|..] + [c];
    FramebufferOpsAppend(a[k..] + m[|a|..], [c]);
    FramebufferOpsAppend(a[k..], m[|a|..]);
    FramebufferOpsNone(m[|a|..]);
  }

  /** Attaching target i after texture work extends the attached prefix of targets by one. */
  lemma ColorsSnoc(targets: seq<Texture>, i: nat, names: map<Texture, Handle>, names2: map<Texture, Handle>,
                   a: seq<Command>, m: seq<Command>, k: nat)
    requires i < |targets| && k <= |a| && a <= m && Grows(names, names2) && targets[i] in names2
    requires NoFramebufferOps(m[|a|..])
    requires ColorsAttached(targets[..i], names, a[k..])
    ensures ColorsAttached(targets[..i + 1], names2,
                           (m + [FramebufferTexture2D(ColorAttachment(i), names2[targets[i]])])[k..])
  {
    var c := FramebufferTexture2D(ColorAttachment(i), names2[targets[i]]);
    OpsSnoc(a, m, k, c);
    ColorOpsGrows(targets[..i], names, names2);
    assert targets[..i + 1][..i] == targets[..i];
    assert forall t :: t in targets[..i + 1] ==> t in targets[..i] || t == targets[i];
  }

  /** `log` ends with the completeness check, whose answer on the log before it was `ok`. */
  ghost predicate Checked(complete: seq<Command> -> bool, log: seq<Command>, ok: bool) {
    |log| > 0 && log[|log| - 1] == CheckFramebufferStatus && complete(log[..|log| - 1]) == ok
  }

  /** What a rebuild issues at framebuffer level: the colour attachments in
      order, the depth attachment, then the completeness check. */
  function RebuildOps(targets: seq<Texture>, depth: Texture?, names: map<Texture, Handle>): (r: seq<Command>)
    requires Named(targets, depth, names)
    ensures |r| == |targets| + (if depth == null then 1 else 2)
    ensures r[..|targets|] == ColorOps(targets, names) && r[|r| - 1] == CheckFramebufferStatus
  {
    ColorOps(targets, names) + DepthOps(depth, names) + [CheckFramebufferStatus]
  }

  /** A rebuild from log position `start` to the end of `log`: its
      framebuffer-level calls are exactly RebuildOps, and the completeness
      check that ends it answered `ok`. */
  ghost predicate Rebuilt(targets: seq<Texture>, depth: Texture?, names: map<Texture, Handle>,
                          complete: seq<Command> -> bool, log: seq<Command>, start: nat, ok: bool) {
    && start < |log| && Checked(complete, log, ok) && Named(targets, depth, names)
    && FramebufferOps(log[start..]) == RebuildOps(targets, depth, names)
  }

  /** A colour pass, a depth pass and the completeness check issue RebuildOps. */
  lemma RebuildOpsOf(targets: seq<Texture>, depth: Texture?, names: map<Texture, Handle>, names2: map<Texture, Handle>,
                     colors: seq<Command>, depths: seq<Command>)
    requires Grows(names, names2) && ColorsAttached(targets, names, colors) && DepthAttached(depth, names2, depths)
    ensures Named(targets, depth, names2)
    ensures FramebufferOps(colors + depths + [CheckFramebufferStatus]) == RebuildOps(targets, depth, names2)
  {
    FramebufferOpsAppend(colors + depths, [CheckFramebufferStatus]);
    FramebufferOpsAppend(colors, depths);
    ColorOpsGrows(targets, names, names2);
  }

  /** The log of a rebuild: the colour pass, the depth pass, then the completeness check. */
  lemma RebuildLog(targets: seq<Texture>, depth: Texture?, names: map<Texture, Handle>, names2: map<Texture, Handle>,
                   complete: seq<Command> -> bool,
                   start: seq<Command>, colored: seq<Command>, attached: seq<Command>, log: seq<Command>)
    requires start <= colored <= attached && log == attached + [CheckFramebufferStatus] && Grows(names, names2)
    requires ColorsAttached(targets, names, colored[|start|..])
    requires DepthAttached(depth, names2, attached[|colored|..])
    ensures Rebuilt(targets, depth, names2, complete, log, |start|, complete(attached))
  {
    assert log[..|log| - 1] == attached;
    var colors, depths := colored[|start|..], attached[|colored|..];
    SliceSplit(colored, log, |start|);
    SliceSplit(attached, log, |colored|);
    assert log[|attached|..] == [CheckFramebufferStatus];
    assert log[|start|..] == colors + depths + [CheckFramebufferStatus];
    RebuildOpsOf(targets, depth, names, names2, colors, depths);
  }

  /** RebuildOps call by call: target i at COLOR_ATTACHMENT0 + i, the depth
      target right after them, and otherwise only the completeness check. */
  lemma RebuildOpsAt(targets: seq<Texture>, depth: Texture?, names: map<Texture, Handle>)
    requires Named(targets, depth, names)
    ensures var r := RebuildOps(targets, depth, names);
      && (forall i :: 0 <= i < |targets| ==> r[i] == FramebufferTexture2D(ColorAttachment(i), names[targets[i]]))
      && (depth != null ==> r[|targets|] == FramebufferTexture2D(DepthAttachment, names[depth]))
    ensures forall c :: c in RebuildOps(targets, depth, names) ==> c.FramebufferTexture2D? || c.CheckFramebufferStatus?
  {
    var r := RebuildOps(targets, depth, names);
    ColorOpsAt(targets, names);
    assert r == ColorOps(targets, names) + DepthOps(depth, names) + [CheckFramebufferStatus];
    forall c | c in r
      ensures c.FramebufferTexture2D? || c.CheckFramebufferStatus?
    {
      var k :| 0 <= k < |r| && r[k] == c;
    }
  }

  /** What a rebuild's log segment says call by call: target i is the i-th
      framebuffer-level call, at COLOR_ATTACHMENT0 + i; the depth target, if
      any, comes right after them; and no bind or draw-buffer call falls
      between the start and the completeness check. */
  lemma RebuiltInOrder(targets: seq<Texture>, depth: Texture?, names: map<Texture, Handle>,
                       complete: seq<Command> -> bool, log: seq<Command>, start: nat, ok: bool)
    requires Rebuilt(targets, depth, names, complete, log, start, ok)
    ensures var ops := FramebufferOps(log[start..]);
      && |ops| == |targets| + (if depth == null then 1 else 2)
      && (forall i :: 0 <= i < |targets| ==> ops[i] == FramebufferTexture2D(ColorAttachment(i), names[targets[i]]))
      && (depth != null ==> ops[|targets|] == FramebufferTexture2D(DepthAttachment, names[depth]))
    ensures forall c :: c in log[start..] ==> !c.BindFramebuffer? && !c.DrawBuffers?
  {
    RebuildOpsAt(targets, depth, names);
    FramebufferOpsMembers(log[start..]);
  }

  /** `order` lists every key of `keys` exactly once. HashMap iteration
      order is unspecified, so any such order may be the one used. */
  ghost predicate Enumerates<K>(order: seq<K>, keys: set<K>) {
    && (forall i, j :: 0 <= i < j < |order| ==> order[i] != order[j])
    && (forall i :: 0 <= i < |order| ==> order[i] in keys)
    && (forall k :: k in keys ==> k in order)
  }

  /** glDelete* for the name of each key of `order`, in that order. */
  function DeleteCommands<K>(kind: ObjectKind, m: map<K, Handle>, order: seq<K>): seq<Command>
    requires forall k :: k in order ==> k in m
  {
    if order == [] then []
    else DeleteCommands(kind, m, order[..|order| - 1]) + [Delete(kind, m[order[|order| - 1]])]
  }

  lemma {:induction false} DeleteCommandsShape<K>(kind: ObjectKind, m: map<K, Handle>, order: seq<K>)
    requires forall k :: k in order ==> k in m
    ensures |DeleteCommands(kind, m, order)| == |order|
    ensures forall i :: 0 <= i < |order| ==> DeleteCommands(kind, m, order)[i] == Delete(kind, m[order[i]])
  {
    if order != [] {
      DeleteCommandsShape(kind, m, order[..|order| - 1]);
    }
  }

  /** A sequence without repetitions has as many distinct elements as entries. */
  lemma {:induction false} DistinctCard<K>(order: seq<K>)
    requires forall i, j :: 0 <= i < j < |order| ==> order[i] != order[j]
    ensures |set k | k in order| == |order|
  {
    if order != [] {
      var init := order[..|order| - 1];
      var last := order[|order| - 1];
      DistinctCard(init);
      assert (set k | k in order) == (set k | k in init) + {last};
      assert last !in (set k | k in init);
    }
  }

  /** destroy issues one delete per cached entry. */
  lemma DeletesAllCount<K>(kind: ObjectKind, m: map<K, Handle>, order: seq<K>)
    requires Enumerates(order, m.Keys)
    ensures |DeleteCommands(kind, m, order)| == |m|
  {
    DeleteCommandsShape(kind, m, order);
    DistinctCard(order);
    assert (set k | k in order) == m.Keys;
  }

  /** Every cached name is deleted. */
  lemma DeletesAllCovers<K>(kind: ObjectKind, m: map<K, Handle>, order: seq<K>)
    requires Enumerates(order, m.Keys)
    ensures forall k :: k in m ==> Delete(kind, m[k]) in DeleteCommands(kind, m, order)
  {
    DeleteCommandsShape(kind, m, order);
    forall k | k in m
      ensures Delete(kind, m[k]) in DeleteCommands(kind, m, order)
    {
      var i :| 0 <= i < |order| && order[i] == k;
      assert DeleteCommands(kind, m, order)[i] == Delete(kind, m[k]);
    }
  }

  /** Nothing but cached names, of the cache's kind, is deleted. */
  lemma DeletesOnlyCached<K>(kind: ObjectKind, m: map<K, Handle>, order: seq<K>)
    requires Enumerates(order, m.Keys)
    ensures var cs := DeleteCommands(kind, m, order);
      forall i :: 0 <= i < |cs| ==> cs[i].Delete? && cs[i].kind == kind && cs[i].name in m.Values
  {
    DeleteCommandsShape(kind, m, order);
    var cs := DeleteCommands(kind, m, order);
    forall i | 0 <= i < |cs|
      ensures cs[i].Delete? && cs[i].kind == kind && cs[i].name in m.Values
    {
      assert m[order[i]] in m.Values;
    }
  }

  lemma AppendAssoc(a: seq<Command>, b: seq<Command>, c: seq<Command>)
    ensures a + (b + c) == (a + b) + c
  {
  }

  /** `next` differs from `prev` at most in the entry for `key`, and keeps
      every entry `prev` had. */
  ghost predicate OnlyAt<K, V>(prev: map<K, V>, next: map<K, V>, key: K) {
    next - {key} == prev - {key} && Grows(prev, next)
  }

  lemma OnlyAtTrans<K, V>(m0: map<K, V>, m1: map<K, V>, m2: map<K, V>, key: K)
    requires OnlyAt(m0, m1, key) && OnlyAt(m1, m2, key)
    ensures OnlyAt(m0, m2, key)
  {
    assert m2 - {key} == m0 - {key};
  }

  /** A map's entry for `k`, if any. */
  function Lookup<K, V>(m: map<K, V>, k: K): (r: Option<V>)
    ensures r.Some? <==> k in m
    ensures r.Some? ==> r.value == m[k]
  {
    if k in m then Some(m[k]) else None
  }

  class LwjglRenderer {
    const gl: Context
    var stats: RenderStats

    // remembered pipeline state
    var renderMode: Option<RenderMode>
    var blendMode: Option<Blending>
    var blendEnabled: bool
    var cullMode: Option<Culling>
    var cullEnabled: bool

    // texture handles; units[u] is the texture last bound to unit u
    var textures: map<Texture, Handle>
    const units: array<Texture?>

    // mesh handles
    var vboPos: map<Mesh, Handle>
    var vboColor: map<Mesh, Handle>
    var vboUv: map<Mesh, Handle>
    var ibos: map<Mesh, Handle>

    // shader program handles and the scratch float buffer for matrices (matbuffer)
    const scratch: array<Float>
    var programs: map<ShaderProgram, Handle>
    var verts: map<ShaderProgram, Handle>
    var frags: map<ShaderProgram, Handle>
    var used: ShaderProgram?
    var usedId: Handle

    // framebuffer handles
    var fbos: map<Framebuffer, Handle>

    ghost predicate Valid()
      reads this`textures, this`programs, this`verts, this`frags, units
    {
      && scratch.Length == ScratchCapacity
      // a texture sitting in a unit has a GL name
      && (forall u :: 0 <= u < units.Length && units[u] != null ==> units[u] in textures)
      // the three program caches are filled together
      && verts.Keys == programs.Keys && frags.Keys == programs.Keys
    }

    /** maxUnits is GL_MAX_TEXTURE_IMAGE_UNITS, queried by the source. */
    constructor (gl: Context, maxUnits: nat)
      ensures Valid() && this.gl == gl && fresh(units) && fresh(scratch)
      ensures units.Length == maxUnits && forall u :: 0 <= u < maxUnits ==> units[u] == null
      ensures stats == ZeroStats
      ensures renderMode == None && blendMode == None && !blendEnabled && cullMode == None && !cullEnabled
      ensures textures == map[] && vboPos == map[] && vboColor == map[] && vboUv == map[] && ibos == map[]
      ensures programs == map[] && verts == map[] && frags == map[] && fbos == map[]
      ensures used == null && usedId == -1
    {
      this.gl := gl;
      stats := ZeroStats;
      renderMode, blendMode, blendEnabled, cullMode, cullEnabled := None, None, false, None, false;
      textures := map[];
      units := new Texture?[maxUnits](_ => null);
      vboPos, vboColor, vboUv, ibos := map[], map[], map[], map[];
      scratch := new Float[ScratchCapacity](_ => Float(0));
      programs, verts, frags := map[], map[], map[];
      used, usedId := null, -1;
      fbos := map[];
    }

    /** Reset the counters and snapshot the cache sizes (Uv buffers are not counted). */
    method BeginFrame()
      modifies this`stats
      ensures stats == ZeroStats.(allocatedEbos := |ibos|, allocatedVbos := |vboPos| + |vboColor|,
                                  allocatedPrograms := |programs|, allocatedFramebuffers := |fbos|,
                                  allocatedTextures := |textures|)
    {
      stats := ZeroStats;
      stats := stats.(allocatedEbos := |ibos|);
      stats := stats.(allocatedVbos := |vboPos| + |vboColor|);
      stats := stats.(allocatedPrograms := |programs|);
      stats := stats.(allocatedFramebuffers := |fbos|);
      stats := stats.(allocatedTextures := |textures|);
    }

    method SetBlending(blend: Blending)
      modifies this`blendMode, this`blendEnabled, gl`log
      ensures var step := StateTracker.SetBlending(BlendState(old(blendMode), old(blendEnabled)), blend);
        BlendState(blendMode, blendEnabled) == step.state && gl.log == old(gl.log) + step.commands
    {
      if blendMode == Some(blend) {
        return;
      }
      blendMode := Some(blend);
      match blend {
        case Disabled =>
          if blendEnabled {
            blendEnabled := false;
            gl.Emit(Disable(BLEND));
          }
        case Alpha =>
          if !blendEnabled {
            blendEnabled := true;
            gl.Emit(Enable(BLEND));
          }
          gl.Emit(BlendFunc(SRC_ALPHA, ONE_MINUS_SRC_ALPHA));
        case Additive =>
          if !blendEnabled {
            blendEnabled := true;
            gl.Emit(Enable(BLEND));
          }
          gl.Emit(BlendFunc(SRC_ALPHA, ONE));
      }
    }

    method SetDepth(flag: bool)
      modifies gl`log
      ensures gl.log == old(gl.log) + [if flag then Enable(DEPTH_TEST) else Disable(DEPTH_TEST)]
    {
      if flag {
        gl.Emit(Enable(DEPTH_TEST));
      } else {
        gl.Emit(Disable(DEPTH_TEST));
      }
    }

    method SetColorMask(red: bool, green: bool, blue: bool, alpha: bool)
      modifies gl`log
      ensures gl.log == old(gl.log) + [ColorMask(red, green, blue, alpha)]
    {
      gl.Emit(ColorMask(red, green, blue, alpha));
    }

    method SetDepthMask(depth: bool)
      modifies gl`log
      ensures gl.log == old(gl.log) + [DepthMask(depth)]
    {
      gl.Emit(DepthMask(depth));
    }

    method SetRenderMode(mode: RenderMode)
      modifies this`renderMode, gl`log
      ensures var step := StateTracker.SetRenderMode(old(renderMode), mode);
        renderMode == step.state && gl.log == old(gl.log) + step.commands
    {
      if Some(mode) != renderMode {
        renderMode := Some(mode);
        match mode {
          case Fill => gl.Emit(PolygonMode(FRONT_AND_BACK, FILL));
          case Wireframe => gl.Emit(PolygonMode(FRONT_AND_BACK, LINE));
        }
      }
    }

    /** setCulling, with the BackFace case ending in the break the source
        omits (see Findings.SetCullingAsWritten for the fall-through). */
    method SetCulling(cull: Culling)
      modifies this`cullMode, this`cullEnabled, gl`log
      ensures var step := StateTracker.SetCulling(CullState(old(cullMode), old(cullEnabled)), cull);
        CullState(cullMode, cullEnabled) == step.state && gl.log == old(gl.log) + step.commands
    {
      if Some(cull) != cullMode {
        cullMode := Some(cull);
        match cull {
          case Disabled =>
            if cullEnabled {
              gl.Emit(Disable(CULL_FACE));
              cullEnabled := false;
            }
          case BackFace =>
            if !cullEnabled {
              gl.Emit(Enable(CULL_FACE));
              cullEnabled := true;
            }
            gl.Emit(CullFace(BACK));
          case FrontFace =>
            if !cullEnabled {
              gl.Emit(Enable(CULL_FACE));
              cullEnabled := true;
            }
            gl.Emit(CullFace(FRONT));
        }
      }
    }

    /** True when setTexture(unit, texture) returns at once: the unit already
        holds the texture and its pixels are clean (paramsDirty is not looked at). */
    ghost predicate TextureElided(unit: int, texture: Texture)
      reads this, units, texture
    {
      0 <= unit < units.Length && units[unit] == texture && !texture.dataDirty
    }

    /** The upload half of setTexture, once the texture is bound: pixels if
        dataDirty (dropping the host copy unless keepData), then parameters if
        paramsDirty; each flag is cleared once its upload is done. */
    method UploadTexture(texture: Texture) returns (r: Outcome)
      modifies gl`log, texture`dataDirty, texture`paramsDirty, texture`data
      ensures r.Thrown? <==> old(texture.dataDirty) && !texture.keepData && old(texture.data).None?
      ensures old(gl.log) <= gl.log && NoFramebufferOps(gl.log[|old(gl.log)|..])
      ensures r.Thrown? ==>
        (r.failure == NullBuffer && texture.dataDirty && texture.paramsDirty == old(texture.paramsDirty) &&
         texture.data == old(texture.data) &&
         gl.log == old(gl.log) + TexImageCommands(texture.format, texture.width, texture.height, old(texture.data)))
      ensures r.Done? ==>
        (!texture.dataDirty && !texture.paramsDirty &&
         texture.data == (if old(texture.dataDirty) && !texture.keepData then None else old(texture.data)) &&
         gl.log == old(gl.log)
           + (if old(texture.dataDirty) then TexImageCommands(texture.format, texture.width, texture.height, old(texture.data)) else [])
           + (if old(texture.paramsDirty) then TexParamCommands(texture.min, texture.mag, texture.wrapU, texture.wrapV) else []))
    {
      if texture.dataDirty {
        r := UploadPixels(texture);
        if r.Thrown? {
          return;
        }
      }
      ghost var uploaded := gl.log;
      if texture.paramsDirty {
        UploadParams(texture);
      }
      NoFramebufferOpsTrans(old(gl.log), uploaded, gl.log);
      return Done;
    }

    /** glTexImage2D and glGenerateMipmap from the host pixels; the host copy
        is then dropped unless keepData (a released copy cannot be cleared). */
    method UploadPixels(texture: Texture) returns (r: Outcome)
      requires texture.dataDirty
      modifies gl`log, texture`dataDirty, texture`data
      ensures gl.log == old(gl.log) + TexImageCommands(texture.format, texture.width, texture.height, old(texture.data))
      ensures NoFramebufferOps(gl.log[|old(gl.log)|..])
      ensures r.Thrown? <==> !texture.keepData && old(texture.data).None?
      ensures r.Thrown? ==> r.failure == NullBuffer && texture.dataDirty && texture.data == old(texture.data)
      ensures r.Done? ==> !texture.dataDirty && texture.data == (if texture.keepData then old(texture.data) else None)
    {
      var format := TextureFormat2int(texture.format);
      gl.Emit(TexImage2D(format, texture.width, texture.height, texture.data));
      gl.Emit(GenerateMipmap);
      if !texture.keepData {
        if texture.data.None? {
          return Thrown(NullBuffer);  // getData().clear() on a released buffer
        }
        texture.data := None;
      }
      texture.dataDirty := false;
      return Done;
    }

    /** The four glTexParameteri calls: filters, then wrap modes. */
    method UploadParams(texture: Texture)
      modifies gl`log, texture`paramsDirty
      ensures !texture.paramsDirty
      ensures gl.log == old(gl.log) + TexParamCommands(texture.min, texture.mag, texture.wrapU, texture.wrapV)
      ensures NoFramebufferOps(gl.log[|old(gl.log)|..])
    {
      gl.Emit(TexParameter(MAG_FILTER, Filter2int(texture.mag)));
      gl.Emit(TexParameter(MIN_FILTER, Filter2int(texture.min)));
      gl.Emit(TexParameter(WRAP_S, Wrap2int(texture.wrapU)));
      gl.Emit(TexParameter(WRAP_T, Wrap2int(texture.wrapV)));
      texture.paramsDirty := false;
    }

    /** The handle-cache lookup of setTexture: a texture seen for the first
        time gets exactly one fresh name and is marked dataDirty. */
    method ResolveTexture(texture: Texture) returns (h: Handle)
      modifies this`textures, gl, texture`dataDirty
      ensures texture !in old(textures) ==>
        (h == old(gl.next) && gl.next == old(gl.next) + 1 && texture.dataDirty &&
         gl.log == old(gl.log) + [Generate(TextureObject, h)])
      ensures texture in old(textures) ==>
        (h == old(textures)[texture] && gl.next == old(gl.next) && gl.log == old(gl.log) &&
         texture.dataDirty == old(texture.dataDirty))
      ensures textures == old(textures)[texture := h]
    {
      if texture in textures {
        h := textures[texture];
      } else {
        h := gl.Gen(TextureObject);
        textures := textures[texture := h];
        texture.dataDirty := true;
      }
    }

    /** The name lookup and bind of setTexture: glActiveTexture, then
        glBindTexture with the cached or freshly generated name. */
    method ResolveAndBind(unit: int, texture: Texture) returns (h: Handle)
      modifies this`textures, this`stats, gl, texture`dataDirty
      ensures var created := texture !in old(textures);
        && h == (if created then old(gl.next) else old(textures)[texture])
        && textures == old(textures)[texture := h]
        && gl.next == old(gl.next) + (if created then 1 else 0)
        && texture.dataDirty == (created || old(texture.dataDirty))
        && gl.log == old(gl.log) + (if created then [Generate(TextureObject, h)] else []) + [ActiveTexture(unit), BindTexture(h)]
      ensures stats == old(stats).(textureSwitch := old(stats).textureSwitch + 1)
      ensures NoFramebufferOps(gl.log[|old(gl.log)|..])
    {
      h := ResolveTexture(texture);
      gl.Emit(ActiveTexture(unit));
      gl.Emit(BindTexture(h));
      stats := stats.(textureSwitch := stats.textureSwitch + 1);
    }

    /** Bind `texture` to `unit`, creating its GL texture on first use (which
        forces dataDirty) and uploading whatever its dirty flags say is stale. */
    method SetTexture(unit: int, texture: Texture) returns (r: Outcome)
      requires Valid()
      modifies this`textures, this`stats, units, gl, texture`dataDirty, texture`paramsDirty, texture`data
      ensures Valid() && Grows(old(textures), textures) && old(gl.log) <= gl.log
      ensures NoFramebufferOps(gl.log[|old(gl.log)|..])
      ensures stats == old(stats).(textureSwitch := stats.textureSwitch)
      ensures r.Done? ==> texture in textures
      ensures r.Thrown? ==> r.failure == UnitOutOfRange || r.failure == NullBuffer
      ensures !(0 <= unit < units.Length) ==>
        (r == Thrown(UnitOutOfRange) && textures == old(textures) && stats == old(stats) &&
         gl.log == old(gl.log) && gl.next == old(gl.next) && unchanged(texture) && unchanged(units))
      ensures old(TextureElided(unit, texture)) ==>
        (r == Done && textures == old(textures) && stats == old(stats) &&
         gl.log == old(gl.log) && gl.next == old(gl.next) && unchanged(texture) && unchanged(units))
      ensures 0 <= unit < units.Length && !old(TextureElided(unit, texture)) ==>
        var created := texture !in old(textures);
        var h := if created then old(gl.next) else old(textures)[texture];
        && textures == old(textures)[texture := h]
        && gl.next == old(gl.next) + (if created then 1 else 0)
        && stats == old(stats).(textureSwitch := old(stats).textureSwitch + 1)
        && (r.Thrown? <==> (created || old(texture.dataDirty)) && !texture.keepData && old(texture.data).None?)
      ensures 0 <= unit < units.Length && !old(TextureElided(unit, texture)) && r.Thrown? ==>
        var created := texture !in old(textures);
        var h := if created then old(gl.next) else old(textures)[texture];
        && r.failure == NullBuffer && texture.dataDirty && unchanged(units)
        && texture.paramsDirty == old(texture.paramsDirty) && texture.data == old(texture.data)
        && gl.log == old(gl.log) + (if created then [Generate(TextureObject, h)] else [])
             + [ActiveTexture(unit), BindTexture(h)]
             + TexImageCommands(texture.format, texture.width, texture.height, old(texture.data))
      ensures 0 <= unit < units.Length && !old(TextureElided(unit, texture)) && r.Done? ==>
        var created := texture !in old(textures);
        var h := if created then old(gl.next) else old(textures)[texture];
        var upload := created || old(texture.dataDirty);
        && !texture.dataDirty && !texture.paramsDirty
        && units[..] == old(units[..])[unit := texture]
        && texture.data == (if upload && !texture.keepData then None else old(texture.data))
        && gl.log == old(gl.log) + (if created then [Generate(TextureObject, h)] else [])
             + [ActiveTexture(unit), BindTexture(h)]
             + (if upload then TexImageCommands(texture.format, texture.width, texture.height, old(texture.data)) else [])
             + (if old(texture.paramsDirty) then TexParamCommands(texture.min, texture.mag, texture.wrapU, texture.wrapV) else [])
    {
      if !(0 <= unit < units.Length) {
        return Thrown(UnitOutOfRange);
      }
      if units[unit] == texture && !texture.dataDirty {
        return Done;
      }
      r := BindTextureUnit(unit, texture);
    }

    /** setTexture past its two early exits: resolve the name, bind it to the
        unit, count the switch, upload what is stale, remember the binding. */
    method BindTextureUnit(unit: int, texture: Texture) returns (r: Outcome)
      requires Valid() && 0 <= unit < units.Length
      modifies this`textures, this`stats, units, gl, texture`dataDirty, texture`paramsDirty, texture`data
      ensures Valid() && old(gl.log) <= gl.log
      ensures NoFramebufferOps(gl.log[|old(gl.log)|..])
      ensures r.Done? ==> texture in textures
      ensures r.Thrown? ==> r.failure == NullBuffer
      ensures var created := texture !in old(textures);
        var h := if created then old(gl.next) else old(textures)[texture];
        && textures == old(textures)[texture := h]
        && gl.next == old(gl.next) + (if created then 1 else 0)
        && stats == old(stats).(textureSwitch := old(stats).textureSwitch + 1)
        && (r.Thrown? <==> (created || old(texture.dataDirty)) && !texture.keepData && old(texture.data).None?)
      ensures r.Thrown? ==>
        var created := texture !in old(textures);
        var h := if created then old(gl.next) else old(textures)[texture];
        && texture.dataDirty && unchanged(units)
        && texture.paramsDirty == old(texture.paramsDirty) && texture.data == old(texture.data)
        && gl.log == old(gl.log) + (if created then [Generate(TextureObject, h)] else [])
             + [ActiveTexture(unit), BindTexture(h)]
             + TexImageCommands(texture.format, texture.width, texture.height, old(texture.data))
      ensures r.Done? ==>
        var created := texture !in old(textures);
        var h := if created then old(gl.next) else old(textures)[texture];
        var upload := created || old(texture.dataDirty);
        && !texture.dataDirty && !texture.paramsDirty
        && units[..] == old(units[..])[unit := texture]
        && texture.data == (if upload && !texture.keepData then None else old(texture.data))
        && gl.log == old(gl.log) + (if created then [Generate(TextureObject, h)] else [])
             + [ActiveTexture(unit), BindTexture(h)]
             + (if upload then TexImageCommands(texture.format, texture.width, texture.height, old(texture.data)) else [])
             + (if old(texture.paramsDirty) then TexParamCommands(texture.min, texture.mag, texture.wrapU, texture.wrapV) else [])
    {
      var handle := ResolveAndBind(unit, texture);
      ghost var upload := texture.dataDirty;
      ghost var bound := gl.log;
      r := UploadTexture(texture);
      NoFramebufferOpsTrans(old(gl.log), bound, gl.log);
      if r.Thrown? {
        return;
      }
      assert gl.log == bound
        + (if upload then TexImageCommands(texture.format, texture.width, texture.height, old(texture.data)) else [])
        + (if old(texture.paramsDirty) then TexParamCommands(texture.min, texture.mag, texture.wrapU, texture.wrapV) else []);
      units[unit] := texture;
    }

    /** Compile both stages, create the program, bind every attribute
        location and link, caching the three names. Compile errors abort;
        the link status is not checked. */
    method CreateProgram(program: ShaderProgram) returns (r: Outcome, handle: Handle)
      requires Valid() && program !in programs
      modifies this`programs, this`verts, this`frags, gl
      ensures Valid()
      ensures gl.compileLog(VERTEX_SHADER, program.vertSource) != "" ==>
        && r == Thrown(CompileFailed(gl.compileLog(VERTEX_SHADER, program.vertSource)))
        && gl.log == old(gl.log) + CompileCommands(VERTEX_SHADER, old(gl.next), program.vertSource)
        && gl.next == old(gl.next) + 1
      ensures gl.compileLog(VERTEX_SHADER, program.vertSource) == "" && gl.compileLog(FRAGMENT_SHADER, program.fragSource) != "" ==>
        && r == Thrown(CompileFailed(gl.compileLog(FRAGMENT_SHADER, program.fragSource)))
        && gl.log == old(gl.log) + CompileCommands(VERTEX_SHADER, old(gl.next), program.vertSource)
                     + CompileCommands(FRAGMENT_SHADER, old(gl.next) + 1, program.fragSource)
        && gl.next == old(gl.next) + 2
      ensures r.Thrown? ==> programs == old(programs) && verts == old(verts) && frags == old(frags)
      ensures gl.compileLog(VERTEX_SHADER, program.vertSource) == "" && gl.compileLog(FRAGMENT_SHADER, program.fragSource) == "" ==>
        && r == Done && handle == old(gl.next) + 2 && gl.next == old(gl.next) + 3
        && gl.log == old(gl.log) + CompileCommands(VERTEX_SHADER, old(gl.next), program.vertSource)
                     + CompileCommands(FRAGMENT_SHADER, old(gl.next) + 1, program.fragSource)
                     + ProgramCommands(handle, old(gl.next), old(gl.next) + 1)
        && programs == old(programs)[program := handle]
        && verts == old(verts)[program := old(gl.next)] && frags == old(frags)[program := old(gl.next) + 1]
    {
      var vert := GetShader(gl, VERTEX_SHADER, program.vertSource);
      if vert.CompileError? {
        return Thrown(CompileFailed(vert.log)), 0;
      }
      var frag := GetShader(gl, FRAGMENT_SHADER, program.fragSource);
      if frag.CompileError? {
        return Thrown(CompileFailed(frag.log)), 0;
      }
      handle := LinkStages(vert.shader, frag.shader);
      Remember(program, handle, vert.shader, frag.shader);
      return Done, handle;
    }

    /** Create a program from two compiled shaders: attach both, bind every
        attribute location, link. */
    method LinkStages(vert: Handle, frag: Handle) returns (handle: Handle)
      modifies gl
      ensures handle == old(gl.next) && gl.next == old(gl.next) + 1
      ensures gl.log == old(gl.log) + ProgramCommands(handle, vert, frag)
    {
      handle := gl.Gen(ProgramObject);
      gl.Emit(AttachShader(handle, vert));
      gl.Emit(AttachShader(handle, frag));
      BindAllLocations(gl, handle);
      gl.Emit(LinkProgram(handle));
    }

    /** Cache a newly built program and its two shaders. */
    method Remember(program: ShaderProgram, handle: Handle, vert: Handle, frag: Handle)
      requires Valid() && program !in programs
      modifies this`programs, this`verts, this`frags
      ensures Valid()
      ensures programs == old(programs)[program := handle]
      ensures verts == old(verts)[program := vert] && frags == old(frags)[program := frag]
    {
      programs := programs[program := handle];
      verts := verts[program := vert];
      frags := frags[program := frag];
    }

    /** Make `program` current (null: no program), creating it on first use.
        Re-selecting the current program does nothing. */
    method SetShaderProgram(program: ShaderProgram?) returns (r: Outcome)
      requires Valid()
      modifies this`programs, this`verts, this`frags, this`used, this`usedId, this`stats, gl
      ensures Valid()
      ensures old(used) == program ==>
        (r == Done && gl.log == old(gl.log) && gl.next == old(gl.next) && stats == old(stats) &&
         used == old(used) && usedId == old(usedId) &&
         programs == old(programs) && verts == old(verts) && frags == old(frags))
      ensures old(used) != program && program == null ==>
        (r == Done && gl.log == old(gl.log) + [UseProgram(0)] && gl.next == old(gl.next) &&
         stats == old(stats).(shaderSwitch := old(stats).shaderSwitch + 1) && used == null && usedId == 0 &&
         programs == old(programs) && verts == old(verts) && frags == old(frags))
      ensures old(used) != program && program != null && program in old(programs) ==>
        (r == Done && gl.log == old(gl.log) + [UseProgram(old(programs)[program])] && gl.next == old(gl.next) &&
         stats == old(stats).(shaderSwitch := old(stats).shaderSwitch + 1) &&
         used == program && usedId == old(programs)[program] &&
         programs == old(programs) && verts == old(verts) && frags == old(frags))
      ensures old(used) != program && program != null && program !in old(programs) ==>
        var v := old(gl.next);
        var vertLog := gl.compileLog(VERTEX_SHADER, program.vertSource);
        var fragLog := gl.compileLog(FRAGMENT_SHADER, program.fragSource);
        var built := old(gl.log) + CompileCommands(VERTEX_SHADER, v, program.vertSource)
                       + CompileCommands(FRAGMENT_SHADER, v + 1, program.fragSource);
        && (r.Thrown? <==> vertLog != "" || fragLog != "")
        && (vertLog != "" ==>
              gl.log == old(gl.log) + CompileCommands(VERTEX_SHADER, v, program.vertSource) && gl.next == v + 1)
        && (vertLog == "" && fragLog != "" ==> gl.log == built && gl.next == v + 2)
        && (r.Thrown? ==> stats == old(stats) && used == old(used) && usedId == old(usedId) &&
                          programs == old(programs) && verts == old(verts) && frags == old(frags))
        && (r.Done? ==>
              && gl.log == built + ProgramCommands(v + 2, v, v + 1) + [UseProgram(v + 2)]
              && gl.next == v + 3
              && programs == old(programs)[program := v + 2]
              && verts == old(verts)[program := v] && frags == old(frags)[program := v + 1]
              && stats == old(stats).(shaderSwitch := old(stats).shaderSwitch + 1)
              && used == program && usedId == v + 2)
    {
      r := Done;
      if used == program {
      } else if program == null {
        gl.Emit(UseProgram(0));
        stats := stats.(shaderSwitch := stats.shaderSwitch + 1);
        used := null;
        usedId := 0;
      } else if program in programs {
        UseHandle(program, programs[program]);
      } else {
        r := BuildAndUse(program);
      }
    }

    /** setShaderProgram for a program seen for the first time: build it,
        then make it current; a compile error leaves everything else alone. */
    method BuildAndUse(program: ShaderProgram) returns (r: Outcome)
      requires Valid() && program !in programs
      modifies this`programs, this`verts, this`frags, this`used, this`usedId, this`stats, gl
      ensures Valid()
      ensures var v := old(gl.next);
        var vertLog := gl.compileLog(VERTEX_SHADER, program.vertSource);
        var fragLog := gl.compileLog(FRAGMENT_SHADER, program.fragSource);
        var built := old(gl.log) + CompileCommands(VERTEX_SHADER, v, program.vertSource)
                       + CompileCommands(FRAGMENT_SHADER, v + 1, program.fragSource);
        && (r.Thrown? <==> vertLog != "" || fragLog != "")
        && (vertLog != "" ==>
              gl.log == old(gl.log) + CompileCommands(VERTEX_SHADER, v, program.vertSource) && gl.next == v + 1)
        && (vertLog == "" && fragLog != "" ==> gl.log == built && gl.next == v + 2)
        && (r.Thrown? ==> stats == old(stats) && used == old(used) && usedId == old(usedId) &&
                          programs == old(programs) && verts == old(verts) && frags == old(frags))
        && (r.Done? ==>
              && gl.log == built + ProgramCommands(v + 2, v, v + 1) + [UseProgram(v + 2)]
              && gl.next == v + 3
              && programs == old(programs)[program := v + 2]
              && verts == old(verts)[program := v] && frags == old(frags)[program := v + 1]
              && stats == old(stats).(shaderSwitch := old(stats).shaderSwitch + 1)
              && used == program && usedId == v + 2)
    {
      var handle;
      r, handle := CreateProgram(program);
      if r.Thrown? {
        return;
      }
      UseHandle(program, handle);
    }

    /** Bind a program that is already built and remember it as current. */
    method UseHandle(program: ShaderProgram, handle: Handle)
      modifies this`used, this`usedId, this`stats, gl`log
      ensures gl.log == old(gl.log) + [UseProgram(handle)]
      ensures stats == old(stats).(shaderSwitch := old(stats).shaderSwitch + 1)
      ensures used == program && usedId == handle
    {
      gl.Emit(UseProgram(handle));
      stats := stats.(shaderSwitch := stats.shaderSwitch + 1);
      used := program;
      usedId := handle;
    }

    /** The handle-cache lookup of setFramebuffer: a framebuffer seen for the
        first time gets one fresh name and is marked dirty. */
    method ResolveFramebuffer(fbo: Framebuffer) returns (h: Handle)
      modifies this`fbos, gl, fbo
      ensures fbo !in old(fbos) ==>
        (h == old(gl.next) && gl.next == old(gl.next) + 1 && fbo.dirty &&
         gl.log == old(gl.log) + [Generate(FramebufferObject, h)])
      ensures fbo in old(fbos) ==>
        (h == old(fbos)[fbo] && gl.next == old(gl.next) && gl.log == old(gl.log) && fbo.dirty == old(fbo.dirty))
      ensures fbos == old(fbos)[fbo := h]
    {
      if fbo in fbos {
        h := fbos[fbo];
      } else {
        fbo.dirty := true;
        h := gl.Gen(FramebufferObject);
        fbos := fbos[fbo := h];
      }
    }

    /** Bind every colour target to texture unit 0 (creating and uploading it
        as setTexture does) and attach it at COLOR_ATTACHMENT0 + i. */
    method AttachColorTargets(fbo: Framebuffer) returns (r: Outcome)
      requires Valid()
      modifies this`textures, this`stats, units, gl, set t: Texture | t in fbo.targets
      ensures Valid() && Grows(old(textures), textures) && old(gl.log) <= gl.log
      ensures stats == old(stats).(textureSwitch := stats.textureSwitch)
      ensures r.Thrown? ==> r.failure == UnitOutOfRange || r.failure == NullBuffer
      ensures r.Done? ==> ColorsAttached(fbo.targets, textures, gl.log[|old(gl.log)|..])
    {
      var targets := fbo.targets;
      var i := 0;
      while i < |targets|
        invariant 0 <= i <= |targets|
        invariant Valid() && Grows(old(textures), textures) && old(gl.log) <= gl.log
        invariant stats == old(stats).(textureSwitch := stats.textureSwitch)
        invariant ColorsAttached(targets[..i], textures, gl.log[|old(gl.log)|..])
      {
        ghost var known := textures;
        ghost var before := gl.log;
        r := SetTexture(0, targets[i]);
        if r.Thrown? {
          return;
        }
        ghost var bound := gl.log;
        gl.Emit(FramebufferTexture2D(ColorAttachment(i), textures[targets[i]]));
        ColorsSnoc(targets, i, known, textures, before, bound, |old(gl.log)|);
        i := i + 1;
      }
      assert targets[..i] == targets;
      return Done;
    }

    /** Attach the depth target, if any, at DEPTH_ATTACHMENT. */
    method AttachDepthTarget(fbo: Framebuffer) returns (r: Outcome)
      requires Valid()
      modifies this`textures, this`stats, units, gl, fbo.depth
      ensures Valid() && Grows(old(textures), textures) && old(gl.log) <= gl.log
      ensures stats == old(stats).(textureSwitch := stats.textureSwitch)
      ensures fbo.depth == null ==> r == Done && gl.log == old(gl.log) && textures == old(textures)
      ensures r.Thrown? ==> r.failure == UnitOutOfRange || r.failure == NullBuffer
      ensures r.Done? ==> DepthAttached(fbo.depth, textures, gl.log[|old(gl.log)|..])
    {
      if fbo.depth == null {
        assert gl.log[|old(gl.log)|..] == [];
        return Done;
      }
      r := SetTexture(0, fbo.depth);
      if r.Thrown? {
        return;
      }
      ghost var bound := gl.log;
      gl.Emit(FramebufferTexture2D(DepthAttachment, textures[fbo.depth]));
      OpsSnoc(old(gl.log), bound, |old(gl.log)|, FramebufferTexture2D(DepthAttachment, textures[fbo.depth]));
      assert old(gl.log)[|old(gl.log)|..] == [];
    }

    /** The set of textures a framebuffer renders into. */
    ghost function TargetSet(fbo: Framebuffer): set<object> {
      (set t: Texture | t in fbo.targets) + (if fbo.depth == null then {} else {fbo.depth})
    }

    /** Select `fbo` as render target (null: the default framebuffer). A new
        or dirty framebuffer is rebuilt: its targets are uploaded and
        attached, and it must then be complete. Every colour target is
        listed as a draw buffer, in order. */
    method SetFramebuffer(fbo: Framebuffer?) returns (r: Outcome)
      requires Valid()
      modifies this`textures, this`stats, this`fbos, units, gl, fbo
      modifies if fbo == null then {} else TargetSet(fbo)
      ensures Valid() && Grows(old(textures), textures) && old(gl.log) <= gl.log
      ensures fbo == null ==>
        (r == Done && gl.log == old(gl.log) + [BindFramebuffer(0)] && gl.next == old(gl.next) &&
         stats == old(stats) && fbos == old(fbos) && textures == old(textures))
      ensures fbo != null ==> FramebufferSelected(fbo, r)
    {
      if fbo == null {
        gl.Emit(BindFramebuffer(0));
        return Done;
      }
      r := SelectFramebuffer(fbo);
    }

    /** What setFramebuffer(fbo) promises for a non-null fbo: the handle is
        cached (first use allocates it), the bind and the switch count come
        first; a framebuffer that was new or dirty is rebuilt right after the
        bind (its colour targets attached in order, then its depth target,
        then the completeness check, with no other framebuffer-level call in
        between), and an incomplete one throws and stays dirty; a completed
        call ends with the draw-buffer list. */
    twostate predicate FramebufferSelected(fbo: Framebuffer, r: Outcome)
      reads this, gl, fbo
    {
      var h := if fbo in old(fbos) then old(fbos)[fbo] else old(gl.next);
      var created := if fbo in old(fbos) then [] else [Generate(FramebufferObject, h)];
      var rebuilt := fbo !in old(fbos) || old(fbo.dirty);
      var bound := |old(gl.log)| + (if fbo in old(fbos) then 1 else 2);
      && fbos == old(fbos)[fbo := h]
      && stats == old(stats).(fboSwitch := old(stats.fboSwitch) + 1, textureSwitch := stats.textureSwitch)
      && old(gl.log) + created + [BindFramebuffer(h)] <= gl.log
      && (!rebuilt ==>
            r == Done && !fbo.dirty && textures == old(textures) && gl.next == old(gl.next) &&
            stats.textureSwitch == old(stats.textureSwitch) &&
            gl.log == old(gl.log) + [BindFramebuffer(h), DrawBuffers(ColorAttachments(|fbo.targets|))])
      && (r.Done? ==> !fbo.dirty && gl.log[|gl.log| - 1] == DrawBuffers(ColorAttachments(|fbo.targets|)))
      && (rebuilt && r.Done? ==>
            Rebuilt(fbo.targets, fbo.depth, textures, gl.framebufferComplete, gl.log[..|gl.log| - 1], bound, true))
      && (r.Thrown? ==>
            && fbo.dirty
            && (r.failure == FramebufferIncomplete || r.failure == UnitOutOfRange || r.failure == NullBuffer)
            && (r.failure == FramebufferIncomplete ==>
                  Rebuilt(fbo.targets, fbo.depth, textures, gl.framebufferComplete, gl.log, bound, false)))
    }

    method SelectFramebuffer(fbo: Framebuffer) returns (r: Outcome)
      requires Valid()
      modifies this`textures, this`stats, this`fbos, units, gl, fbo, TargetSet(fbo)
      ensures Valid() && Grows(old(textures), textures) && old(gl.log) <= gl.log
      ensures FramebufferSelected(fbo, r)
    {
      var handle := BindFbo(fbo);
      ghost var bound := gl.log;
      assert Valid();
      r := FinishFramebuffer(fbo, |old(gl.log)| + (if fbo in old(fbos) then 1 else 2));
      assert bound <= gl.log;
    }

    /** Look up or create the framebuffer's name, bind it and count the switch. */
    method BindFbo(fbo: Framebuffer) returns (h: Handle)
      modifies this`fbos, this`stats, gl, fbo
      ensures h == (if fbo in old(fbos) then old(fbos)[fbo] else old(gl.next))
      ensures fbos == old(fbos)[fbo := h]
      ensures stats == old(stats).(fboSwitch := old(stats).fboSwitch + 1)
      ensures gl.next == old(gl.next) + (if fbo in old(fbos) then 0 else 1)
      ensures gl.log == old(gl.log) + (if fbo in old(fbos) then [] else [Generate(FramebufferObject, h)]) + [BindFramebuffer(h)]
      ensures fbo.dirty == (fbo !in old(fbos) || old(fbo.dirty))
    {
      h := ResolveFramebuffer(fbo);
      gl.Emit(BindFramebuffer(h));
      stats := stats.(fboSwitch := stats.fboSwitch + 1);
    }

    /** What setFramebuffer does once the framebuffer is bound: rebuild it
        if dirty, then set the draw buffers. */
    method FinishFramebuffer(fbo: Framebuffer, ghost start: nat) returns (r: Outcome)
      requires Valid() && start == |gl.log|
      modifies this`textures, this`stats, units, gl, fbo, TargetSet(fbo)
      ensures Valid() && Grows(old(textures), textures) && old(gl.log) <= gl.log
      ensures stats == old(stats).(textureSwitch := stats.textureSwitch)
      ensures !old(fbo.dirty) ==>
        (r == Done && !fbo.dirty && textures == old(textures) && gl.next == old(gl.next) && stats == old(stats) &&
         gl.log == old(gl.log) + [DrawBuffers(ColorAttachments(|fbo.targets|))])
      ensures r.Done? ==>
        && !fbo.dirty && |old(gl.log)| < |gl.log|
        && gl.log[|gl.log| - 1] == DrawBuffers(ColorAttachments(|fbo.targets|))
      ensures old(fbo.dirty) && r.Done? ==>
        Rebuilt(fbo.targets, fbo.depth, textures, gl.framebufferComplete, gl.log[..|gl.log| - 1], start, true)
      ensures r.Thrown? ==>
        && fbo.dirty
        && (r.failure == FramebufferIncomplete || r.failure == UnitOutOfRange || r.failure == NullBuffer)
        && (r.failure == FramebufferIncomplete ==>
              Rebuilt(fbo.targets, fbo.depth, textures, gl.framebufferComplete, gl.log, start, false))
    {
      if !fbo.dirty {
        SetDrawBuffers(|fbo.targets|);
        return Done;
      }
      r := RebuildAndDraw(fbo);
    }

    /** A dirty framebuffer: rebuild it, then set the draw buffers. */
    method RebuildAndDraw(fbo: Framebuffer) returns (r: Outcome)
      requires Valid() && fbo.dirty
      modifies this`textures, this`stats, units, gl, fbo, TargetSet(fbo)
      ensures Valid() && Grows(old(textures), textures) && old(gl.log) <= gl.log
      ensures stats == old(stats).(textureSwitch := stats.textureSwitch)
      ensures r.Done? ==>
        && !fbo.dirty && |old(gl.log)| < |gl.log|
        && gl.log[|gl.log| - 1] == DrawBuffers(ColorAttachments(|fbo.targets|))
        && Rebuilt(fbo.targets, fbo.depth, textures, gl.framebufferComplete, gl.log[..|gl.log| - 1], |old(gl.log)|, true)
      ensures r.Thrown? ==>
        && fbo.dirty
        && (r.failure == FramebufferIncomplete || r.failure == UnitOutOfRange || r.failure == NullBuffer)
        && (r.failure == FramebufferIncomplete ==>
              Rebuilt(fbo.targets, fbo.depth, textures, gl.framebufferComplete, gl.log, |old(gl.log)|, false))
    {
      r := RebuildFramebuffer(fbo);
      if r.Thrown? {
        return;
      }
      ghost var built := gl.log;
      SetDrawBuffers(|fbo.targets|);
      assert gl.log[..|gl.log| - 1] == built;
    }

    /** The rebuild half of setFramebuffer: attach all targets, then require completeness. */
    method RebuildFramebuffer(fbo: Framebuffer) returns (r: Outcome)
      requires Valid() && fbo.dirty
      modifies this`textures, this`stats, units, gl, fbo, TargetSet(fbo)
      ensures Valid() && Grows(old(textures), textures) && old(gl.log) <= gl.log
      ensures stats == old(stats).(textureSwitch := stats.textureSwitch)
      ensures r.Done? ==>
        !fbo.dirty && Rebuilt(fbo.targets, fbo.depth, textures, gl.framebufferComplete, gl.log, |old(gl.log)|, true)
      ensures r.Thrown? ==>
        && fbo.dirty
        && (r.failure == FramebufferIncomplete || r.failure == UnitOutOfRange || r.failure == NullBuffer)
        && (r.failure == FramebufferIncomplete ==>
              Rebuilt(fbo.targets, fbo.depth, textures, gl.framebufferComplete, gl.log, |old(gl.log)|, false))
    {
      ghost var start := gl.log;
      r := AttachColorTargets(fbo);
      if r.Thrown? {
        return;
      }
      ghost var colored := gl.log;
      ghost var colorNames := textures;
      r := AttachDepthTarget(fbo);
      if r.Thrown? {
        return;
      }
      r := CheckRebuilt(fbo, start, colored, colorNames);
    }

    /** The end of a rebuild: glCheckFramebufferStatus; complete clears dirty, incomplete throws. */
    method CheckRebuilt(fbo: Framebuffer, ghost start: seq<Command>, ghost colored: seq<Command>,
                        ghost colorNames: map<Texture, Handle>) returns (r: Outcome)
      requires fbo.dirty && start <= colored <= gl.log && Grows(colorNames, textures)
      requires ColorsAttached(fbo.targets, colorNames, colored[|start|..])
      requires DepthAttached(fbo.depth, textures, gl.log[|colored|..])
      modifies gl`log, fbo`dirty
      ensures old(gl.log) <= gl.log
      ensures r.Done? || r == Thrown(FramebufferIncomplete)
      ensures fbo.dirty == r.Thrown?
      ensures Rebuilt(fbo.targets, fbo.depth, textures, gl.framebufferComplete, gl.log, |start|, r.Done?)
    {
      ghost var attached := gl.log;
      var complete := gl.FramebufferStatus();
      RebuildLog(fbo.targets, fbo.depth, colorNames, textures, gl.framebufferComplete, start, colored, attached, gl.log);
      if !complete {
        return Thrown(FramebufferIncomplete);
      }
      fbo.dirty := false;
      return Done;
    }

    /** Delete the name of every entry of `m`, in HashMap iteration order. */
    method DeleteAll<K>(kind: ObjectKind, m: map<K, Handle>) returns (ghost order: seq<K>)
      modifies gl`log
      ensures Enumerates(order, m.Keys) && gl.log == old(gl.log) + DeleteCommands(kind, m, order)
    {
      var rest := m.Keys;
      order := [];
      while rest != {}
        invariant forall k :: k in m <==> k in rest || k in order
        invariant forall k :: k in order ==> k !in rest
        invariant forall i, j :: 0 <= i < j < |order| ==> order[i] != order[j]
        invariant gl.log == old(gl.log) + DeleteCommands(kind, m, order)
        decreases |rest|
      {
        var k :| k in rest;
        gl.Emit(Delete(kind, m[k]));
        rest := rest - {k};
        order := order + [k];
      }
    }

    /** Release every GL object the caches name: textures, the position,
        colour and uv buffers, index buffers, programs, vertex and fragment
        shaders, framebuffers, in that order. The caches themselves are kept. */
    method Destroy() returns (ghost texs: seq<Texture>, ghost pos: seq<Mesh>, ghost color: seq<Mesh>,
                              ghost uv: seq<Mesh>, ghost idx: seq<Mesh>, ghost progs: seq<ShaderProgram>,
                              ghost vs: seq<ShaderProgram>, ghost fs: seq<ShaderProgram>, ghost fbs: seq<Framebuffer>)
      modifies gl`log
      ensures Enumerates(texs, textures.Keys) && Enumerates(pos, vboPos.Keys) && Enumerates(color, vboColor.Keys)
      ensures Enumerates(uv, vboUv.Keys) && Enumerates(idx, ibos.Keys) && Enumerates(progs, programs.Keys)
      ensures Enumerates(vs, verts.Keys) && Enumerates(fs, frags.Keys) && Enumerates(fbs, fbos.Keys)
      ensures gl.log == old(gl.log)
        + DeleteCommands(TextureObject, textures, texs)
        + DeleteCommands(BufferObject, vboPos, pos) + DeleteCommands(BufferObject, vboColor, color)
        + DeleteCommands(BufferObject, vboUv, uv) + DeleteCommands(BufferObject, ibos, idx)
        + DeleteCommands(ProgramObject, programs, progs)
        + DeleteCommands(ShaderObject, verts, vs) + DeleteCommands(ShaderObject, frags, fs)
        + DeleteCommands(FramebufferObject, fbos, fbs)
    {
      texs := DeleteAll(TextureObject, textures);
      pos := DeleteAll(BufferObject, vboPos);
      color := DeleteAll(BufferObject, vboColor);
      uv := DeleteAll(BufferObject, vboUv);
      idx := DeleteAll(BufferObject, ibos);
      progs := DeleteAll(ProgramObject, programs);
      vs := DeleteAll(ShaderObject, verts);
      fs := DeleteAll(ShaderObject, frags);
      fbs := DeleteAll(FramebufferObject, fbos);
    }

    /** glDrawBuffers over COLOR_ATTACHMENT0 .. COLOR_ATTACHMENT0 + n - 1,
        filled into the buffer one attachment at a time. */
    method SetDrawBuffers(n: nat)
      modifies gl`log
      ensures gl.log == old(gl.log) + [DrawBuffers(ColorAttachments(n))]
    {
      var buffers: seq<Attachment> := [];
      var i := 0;
      while i < n
        invariant 0 <= i <= n
        invariant buffers == ColorAttachments(i)
      {
        buffers := buffers + [ColorAttachment(i)];
        i := i + 1;
      }
      gl.Emit(DrawBuffers(buffers));
    }

    /** One matrix stored into matbuffer at float offset `at`, element by element. */
    method StoreMatrix(m: seq<Float>, at: nat)
      requires at + |m| <= scratch.Length
      modifies scratch
      ensures scratch[at..at + |m|] == m
      ensures scratch[..at] == old(scratch[..at])
    {
      var k := 0;
      while k < |m|
        invariant 0 <= k <= |m|
        invariant scratch[at..at + k] == m[..k]
        invariant scratch[..at] == old(scratch[..at])
      {
        scratch[at + k] := m[k];
        k := k + 1;
      }
    }

    /** The matrix-array case of updateUniforms: matrix i stored at offset
        stride * i, failing as soon as one does not fit in matbuffer. */
    method StoreMatrices(ms: seq<seq<Float>>, stride: nat) returns (ok: bool)
      requires 0 < stride && forall j :: 0 <= j < |ms| ==> |ms[j]| == stride
      modifies scratch
      ensures ok <==> stride * |ms| <= scratch.Length
      ensures ok ==> scratch[..stride * |ms|] == Flatten(ms)
    {
      var i, at := 0, 0;
      while i < |ms|
        invariant 0 <= i <= |ms| && at == stride * i
        invariant at <= scratch.Length
        invariant scratch[..at] == Flatten(ms[..i])
      {
        MulStep(stride, i);
        if at + stride > scratch.Length {
          MulMono(stride, i + 1, |ms|);
          return false;
        }
        ghost var before := scratch[..at];
        StoreMatrix(ms[i], at);
        assert scratch[..at + stride] == before + ms[i] by {
          assert scratch[..at + stride] == scratch[..at] + scratch[at..at + stride];
        }
        assert ms[..i + 1] == ms[..i] + [ms[i]];
        FlattenAppend(ms[..i], ms[i]);
        i, at := i + 1, at + stride;
      }
      assert ms[..i] == ms;
      return true;
    }

    /** The upload of one uniform value at location `loc`, marshaling
        matrices through matbuffer. */
    method UploadUniform(loc: int, v: UniformValue) returns (r: Outcome)
      requires scratch.Length == ScratchCapacity
      modifies scratch, gl`log
      ensures r.Thrown? <==> Overflows(v)
      ensures r.Thrown? ==> r.failure == ScratchOverflow && gl.log == old(gl.log)
      ensures r.Done? ==> gl.log == old(gl.log) + UniformUpload(loc, v)
    {
      match v {
        case UFloat(x) => gl.Emit(Uniform1f(loc, x));
        case USampler2D(i) => gl.Emit(Uniform1i(loc, i));
        case UInteger(i) => gl.Emit(Uniform1i(loc, i));
        case UVector2(x, y) => gl.Emit(Uniform2f(loc, x, y));
        case UVector3(x, y, z) => gl.Emit(Uniform3f(loc, x, y, z));
        case UVector4(x, y, z, w) => gl.Emit(Uniform4f(loc, x, y, z, w));
        case UMatrix3(m) =>
          StoreMatrix(m, 0);
          gl.Emit(UniformMatrix3fv(loc, scratch[..9]));
        case UMatrix3Array(ms) =>
          var ok := StoreMatrices(ms, 9);
          if !ok {
            return Thrown(ScratchOverflow);
          }
          gl.Emit(UniformMatrix3fv(loc, scratch[..9 * |ms|]));
        case UMatrix4(m) =>
          StoreMatrix(m, 0);
          gl.Emit(UniformMatrix4fv(loc, scratch[..16]));
        case UMatrix4Array(ms) =>
          var ok := StoreMatrices(ms, 16);
          if !ok {
            return Thrown(ScratchOverflow);
          }
          gl.Emit(UniformMatrix4fv(loc, scratch[..16 * |ms|]));
      }
      return Done;
    }

    /** One turn of updateUniforms: look the location up, then upload. */
    method UpdateUniform(program: Handle, u: Uniform) returns (r: Outcome)
      requires scratch.Length == ScratchCapacity
      modifies scratch, gl`log
      ensures r.Thrown? <==> Overflows(u.value)
      ensures r.Thrown? ==> r.failure == ScratchOverflow && gl.log == old(gl.log) + [GetUniformLocation(program, u.name)]
      ensures r.Done? ==>
        gl.log == old(gl.log) + [GetUniformLocation(program, u.name)] + UniformUpload(gl.uniformLocation(program, u.name), u.value)
    {
      var loc := gl.UniformLocation(program, u.name);
      r := UploadUniform(loc, u.value);
    }

    /** updateUniforms: every uniform of the current program in order, each
        a location lookup followed by its upload; the first value that
        overruns matbuffer throws after its lookup. */
    method UpdateUniforms() returns (r: Outcome)
      requires Valid() && used != null
      modifies scratch, gl`log
      ensures var us := used.uniforms;
        var k := CleanPrefix(us);
        && (r.Done? <==> k == |us|)
        && (r.Done? ==> gl.log == old(gl.log) + UniformsCommands(usedId, gl.uniformLocation, us))
        && (r.Thrown? ==>
              r.failure == ScratchOverflow &&
              gl.log == old(gl.log) + UniformsCommands(usedId, gl.uniformLocation, us[..k])
                + [GetUniformLocation(usedId, us[k].name)])
    {
      r := UpdateUniformList(usedId, used.uniforms);
    }

    /** The loop of updateUniforms over the uniforms `us` of program `program`. */
    method UpdateUniformList(program: Handle, us: seq<Uniform>) returns (r: Outcome)
      requires scratch.Length == ScratchCapacity
      modifies scratch, gl`log
      ensures var k := CleanPrefix(us);
        && (r.Done? <==> k == |us|)
        && (r.Done? ==> gl.log == old(gl.log) + UniformsCommands(program, gl.uniformLocation, us))
        && (r.Thrown? ==>
              r.failure == ScratchOverflow &&
              gl.log == old(gl.log) + UniformsCommands(program, gl.uniformLocation, us[..k])
                + [GetUniformLocation(program, us[k].name)])
    {
      ghost var locate := gl.uniformLocation;
      ghost var k := CleanPrefix(us);
      var i := 0;
      while i < |us|
        invariant 0 <= i <= k
        invariant forall j :: 0 <= j < i ==> !Overflows(us[j].value)
        invariant gl.log == old(gl.log) + UniformsCommands(program, locate, us[..i])
      {
        r := UpdateUniform(program, us[i]);
        if r.Thrown? {
          CleanPrefixFirst(us, i);
          assert us[..k] == us[..i];
          return;
        }
        UniformsCommandsSnoc(program, locate, us, i);
        i := i + 1;
      }
      assert us[..i] == us;
      return Done;
    }

    /** The part of the renderer and driver state the attribute loop of
        renderMesh reads and changes for `mesh`. */
    ghost function ViewOf(mesh: Mesh): VboView
      reads this`vboPos, this`vboUv, this`vboColor, mesh`data, gl`next
    {
      VboView(Lookup(vboPos, mesh), Lookup(vboUv, mesh), Lookup(vboColor, mesh), mesh.data, gl.next)
    }

    /** The buffer half of one attribute iteration, on the cache of its kind. */
    method UploadVbo(cache: map<Mesh, Handle>, mesh: Mesh, a: Attribute) returns (c: map<Mesh, Handle>, r: Outcome)
      modifies gl, mesh`data
      ensures mesh !in cache ==>
        var h := old(gl.next);
        && c == cache[mesh := h] && gl.next == h + 1
        && (a !in old(mesh.data) ==>
              r == Thrown(NullBuffer) && mesh.data == old(mesh.data) &&
              gl.log == old(gl.log) + [Generate(BufferObject, h), BindBuffer(ARRAY_BUFFER, h)])
        && (a in old(mesh.data) ==>
              r == Done && mesh.data == (if mesh.keepData then old(mesh.data) else old(mesh.data) - {a}) &&
              gl.log == old(gl.log) + [Generate(BufferObject, h), BindBuffer(ARRAY_BUFFER, h),
                                       BufferData(ARRAY_BUFFER, Vertices(old(mesh.data)[a]), Usage2int(mesh.usage))])
      ensures mesh in cache ==>
        var h := cache[mesh];
        && c == cache && gl.next == old(gl.next) && mesh.data == old(mesh.data)
        && (!mesh.dirty ==> r == Done && gl.log == old(gl.log) + [BindBuffer(ARRAY_BUFFER, h)])
        && (mesh.dirty && a !in mesh.data ==>
              r == Thrown(NullBuffer) && gl.log == old(gl.log) + [BindBuffer(ARRAY_BUFFER, h)])
        && (mesh.dirty && a in mesh.data ==>
              r == Done &&
              gl.log == old(gl.log) + [BindBuffer(ARRAY_BUFFER, h),
                                       BufferSubData(ARRAY_BUFFER, Shl(mesh.data[a].position, 2), Vertices(mesh.data[a]))])
    {
      if mesh !in cache {
        var h := gl.Gen(BufferObject);
        c := cache[mesh := h];
        gl.Emit(BindBuffer(ARRAY_BUFFER, h));
        if a !in mesh.data {
          return c, Thrown(NullBuffer);  // glBufferData dereferences the null buffer
        }
        gl.Emit(BufferData(ARRAY_BUFFER, Vertices(mesh.data[a]), Usage2int(mesh.usage)));
        if !mesh.keepData {
          mesh.data := mesh.data - {a};
        }
        return c, Done;
      }
      c := cache;
      gl.Emit(BindBuffer(ARRAY_BUFFER, cache[mesh]));
      if mesh.dirty {
        if a !in mesh.data {
          return c, Thrown(NullBuffer);  // data.position() on the null buffer
        }
        var buf := mesh.data[a];
        gl.Emit(BufferSubData(ARRAY_BUFFER, Shl(buf.position, 2), Vertices(buf)));
      }
      return c, Done;
    }

    /** The buffer half of one attribute iteration, on the cache of the attribute's kind. */
    method BufferAttribute(mesh: Mesh, a: Attribute) returns (r: Outcome)
      requires HasBuffer(a)
      modifies this`vboPos, this`vboUv, this`vboColor, gl, mesh`data
      ensures var b := BufferStep(old(ViewOf(mesh)), a, mesh.keepData, mesh.dirty, mesh.usage);
        ViewOf(mesh) == b.view && gl.log == old(gl.log) + b.commands && r == b.outcome
      ensures OnlyAt(old(vboPos), vboPos, mesh)
      ensures OnlyAt(old(vboUv), vboUv, mesh)
      ensures OnlyAt(old(vboColor), vboColor, mesh)
    {
      ghost var v := ViewOf(mesh);
      if a == Position {
        vboPos, r := UploadVbo(vboPos, mesh, a);
      } else if a == Uv {
        vboUv, r := UploadVbo(vboUv, mesh, a);
      } else {
        vboColor, r := UploadVbo(vboColor, mesh, a);
      }
    }

    /** One iteration of renderMesh's attribute loop. */
    method AttributeIteration(mesh: Mesh, a: Attribute) returns (r: Outcome)
      modifies this`vboPos, this`vboUv, this`vboColor, gl, mesh`data
      ensures var s := AttributeStep(old(ViewOf(mesh)), a, mesh.keepData, mesh.dirty, mesh.usage);
        ViewOf(mesh) == s.view && gl.log == old(gl.log) + s.commands && r == s.outcome
      ensures OnlyAt(old(vboPos), vboPos, mesh)
      ensures OnlyAt(old(vboUv), vboUv, mesh)
      ensures OnlyAt(old(vboColor), vboColor, mesh)
    {
      r := Done;
      if HasBuffer(a) {
        r := BufferAttribute(mesh, a);
        if r.Thrown? {
          return;
        }
      }
      gl.Emit(EnableVertexAttribArray(Id(a)));
      gl.Emit(VertexAttribPointer(Id(a), Size(a)));
    }

    /** One turn of the attribute loop, stated on the pass so far. */
    method PassStep(mesh: Mesh, a: Attribute, ghost prev: Pass, ghost base: seq<Command>,
                    ghost pos: map<Mesh, Handle>, ghost uv: map<Mesh, Handle>, ghost color: map<Mesh, Handle>)
      returns (r: Outcome)
      requires prev.outcome.Done? && ViewOf(mesh) == prev.view && gl.log == base + prev.commands
      requires OnlyAt(pos, vboPos, mesh) && OnlyAt(uv, vboUv, mesh) && OnlyAt(color, vboColor, mesh)
      modifies this`vboPos, this`vboUv, this`vboColor, gl, mesh`data
      ensures var p := Extend(prev, a, mesh.keepData, mesh.dirty, mesh.usage);
        && ViewOf(mesh) == p.view && gl.log == base + p.commands && r == p.outcome
        && p.count == prev.count + (if r.Done? then 1 else 0)
      ensures OnlyAt(pos, vboPos, mesh) && OnlyAt(uv, vboUv, mesh) && OnlyAt(color, vboColor, mesh)
    {
      AttributeStepCount(prev.view, a, mesh.keepData, mesh.dirty, mesh.usage);
      ghost var st := AttributeStep(prev.view, a, mesh.keepData, mesh.dirty, mesh.usage);
      ghost var p := Extend(prev, a, mesh.keepData, mesh.dirty, mesh.usage);
      assert p == Pass(st.view, prev.commands + st.commands, st.outcome, prev.count + st.count);
      AppendAssoc(base, prev.commands, st.commands);
      ghost var pos1, uv1, color1 := vboPos, vboUv, vboColor;
      r := AttributeIteration(mesh, a);
      OnlyAtTrans(pos, pos1, vboPos, mesh);
      OnlyAtTrans(uv, uv1, vboUv, mesh);
      OnlyAtTrans(color, color1, vboColor, mesh);
    }

    /** The attribute loop of renderMesh over the current program's attributes. */
    method BindAttributes(mesh: Mesh) returns (r: Outcome)
      requires used != null
      modifies this`vboPos, this`vboUv, this`vboColor, this`stats, gl, mesh`data
      ensures var p := AttributePass(old(ViewOf(mesh)), used.attributes, mesh.keepData, mesh.dirty, mesh.usage);
        && ViewOf(mesh) == p.view && gl.log == old(gl.log) + p.commands && r == p.outcome
        && stats == old(stats).(vboCount := old(stats.vboCount) + p.count)
      ensures OnlyAt(old(vboPos), vboPos, mesh)
      ensures OnlyAt(old(vboUv), vboUv, mesh)
      ensures OnlyAt(old(vboColor), vboColor, mesh)
    {
      var attrs := used.attributes;
      ghost var v := ViewOf(mesh);
      ghost var p := AttributePass(v, attrs[..0], mesh.keepData, mesh.dirty, mesh.usage);
      var i := 0;
      while i < |attrs|
        invariant 0 <= i <= |attrs|
        invariant p == AttributePass(v, attrs[..i], mesh.keepData, mesh.dirty, mesh.usage)
        invariant p.outcome.Done? && ViewOf(mesh) == p.view && gl.log == old(gl.log) + p.commands
        invariant stats == old(stats).(vboCount := old(stats.vboCount) + p.count)
        invariant OnlyAt(old(vboPos), vboPos, mesh)
        invariant OnlyAt(old(vboUv), vboUv, mesh)
        invariant OnlyAt(old(vboColor), vboColor, mesh)
      {
        AttributePassSnoc(v, attrs, i, mesh.keepData, mesh.dirty, mesh.usage);
        r := PassStep(mesh, attrs[i], p, old(gl.log), old(vboPos), old(vboUv), old(vboColor));
        p := Extend(p, attrs[i], mesh.keepData, mesh.dirty, mesh.usage);
        if r.Thrown? {
          AttributePassAfterThrow(v, attrs, i + 1, mesh.keepData, mesh.dirty, mesh.usage);
          return;
        }
        stats := stats.(vboCount := stats.vboCount + 1);
        i := i + 1;
      }
      assert attrs[..i] == attrs;
      return Done;
    }

    /** The index-buffer half of renderMesh: cached per mesh, created and
        fully uploaded on first use, partially re-uploaded while dirty. */
    method BindIndices(mesh: Mesh)
      modifies this`ibos, gl
      ensures var cached := Lookup(old(ibos), mesh);
        && gl.log == old(gl.log) + IndexCommands(cached, old(gl.next), mesh.indices, mesh.dirty, mesh.usage)
        && ibos == old(ibos)[mesh := if cached.Some? then cached.value else old(gl.next)]
        && gl.next == old(gl.next) + (if cached.Some? then 0 else 1)
    {
      if mesh !in ibos {
        var ibo := gl.Gen(BufferObject);
        ibos := ibos[mesh := ibo];
        gl.Emit(BindBuffer(ELEMENT_ARRAY_BUFFER, ibo));
        if mesh.indices.Some? {
          gl.Emit(BufferData(ELEMENT_ARRAY_BUFFER, Indices(mesh.indices.value), Usage2int(mesh.usage)));
        }
      } else {
        var ibo := ibos[mesh];
        gl.Emit(BindBuffer(ELEMENT_ARRAY_BUFFER, ibo));
        if mesh.dirty && mesh.indices.Some? {
          var ix := mesh.indices.value;
          gl.Emit(BufferSubData(ELEMENT_ARRAY_BUFFER, ByteOffset(ix.width, ix.position), Indices(ix)));
        }
      }
    }

    /** The draw call of renderMesh, by index width. */
    method DrawMesh(mesh: Mesh)
      modifies gl`log
      ensures gl.log == old(gl.log) + DrawCommands(mesh.primitive, mesh.offset, mesh.length, mesh.indices)
    {
      if mesh.indices.Some? {
        var ix := mesh.indices.value;
        gl.Emit(DrawElements(Primitive2int(mesh.primitive), mesh.length, IndexTypeOf(ix.width), ByteOffset(ix.width, mesh.offset)));
      }
    }

    /** What renderMesh(mesh) promises while a program is in use: the
        uniforms are uploaded first (the first one that overruns matbuffer
        throws), then the attribute loop runs (a null vertex buffer throws),
        then the index buffer is bound or created, the mesh is marked clean
        and drawn, and its vertex count is added to the statistics. */
    twostate predicate MeshRendered(mesh: Mesh, r: Outcome)
      requires used != null
      reads this, gl, mesh, used
    {
      var us := used.uniforms;
      var k := CleanPrefix(us);
      var p := AttributePass(old(ViewOf(mesh)), used.attributes, mesh.keepData, old(mesh.dirty), mesh.usage);
      var cached := Lookup(old(ibos), mesh);
      && (k < |us| ==>
            && r == Thrown(ScratchOverflow)
            && gl.log == old(gl.log) + UniformsCommands(usedId, gl.uniformLocation, us[..k])
                 + [GetUniformLocation(usedId, us[k].name)]
            && ViewOf(mesh) == old(ViewOf(mesh)) && mesh.dirty == old(mesh.dirty)
            && ibos == old(ibos) && stats == old(stats))
      && (k == |us| && p.outcome.Thrown? ==>
            && r == p.outcome
            && gl.log == old(gl.log) + UniformsCommands(usedId, gl.uniformLocation, us) + p.commands
            && ViewOf(mesh) == p.view && mesh.dirty == old(mesh.dirty) && ibos == old(ibos)
            && stats == old(stats).(vboCount := old(stats.vboCount) + p.count))
      && (k == |us| && p.outcome.Done? ==>
            && r == Done
            && gl.log == old(gl.log) + UniformsCommands(usedId, gl.uniformLocation, us) + p.commands
                 + IndexCommands(cached, p.view.next, mesh.indices, old(mesh.dirty), mesh.usage)
                 + DrawCommands(mesh.primitive, mesh.offset, mesh.length, mesh.indices)
            && ViewOf(mesh).(next := p.view.next) == p.view
            && gl.next == p.view.next + (if cached.Some? then 0 else 1)
            && ibos == old(ibos)[mesh := if cached.Some? then cached.value else p.view.next]
            && !mesh.dirty
            && stats == old(stats).(vboCount := old(stats.vboCount) + |used.attributes|,
                                    vertices := old(stats.vertices) + mesh.length))
    }

    /** Draw `mesh` with the current program; nothing happens without one. */
    method RenderMesh(mesh: Mesh) returns (r: Outcome)
      requires Valid()
      modifies this`vboPos, this`vboUv, this`vboColor, this`ibos, this`stats, gl, scratch, mesh`data, mesh`dirty
      ensures OnlyAt(old(vboPos), vboPos, mesh)
      ensures OnlyAt(old(vboUv), vboUv, mesh)
      ensures OnlyAt(old(vboColor), vboColor, mesh)
      ensures old(used) == null ==>
        r == Done && gl.log == old(gl.log) && gl.next == old(gl.next) && stats == old(stats) &&
        ViewOf(mesh) == old(ViewOf(mesh)) && ibos == old(ibos) && mesh.dirty == old(mesh.dirty)
      ensures old(used) != null ==> MeshRendered(mesh, r)
    {
      if used == null {
        return Done;
      }
      r := RenderWithProgram(mesh);
    }

    /** renderMesh while a program is in use: uniforms, then the draw phase. */
    method RenderWithProgram(mesh: Mesh) returns (r: Outcome)
      requires Valid() && used != null
      modifies this`vboPos, this`vboUv, this`vboColor, this`ibos, this`stats, gl, scratch, mesh`data, mesh`dirty
      ensures OnlyAt(old(vboPos), vboPos, mesh)
      ensures OnlyAt(old(vboUv), vboUv, mesh)
      ensures OnlyAt(old(vboColor), vboColor, mesh)
      ensures MeshRendered(mesh, r)
    {
      ghost var view := ViewOf(mesh);
      r := UpdateUniforms();
      assert ViewOf(mesh) == view;
      if r.Thrown? {
        return;
      }
      r := DrawPhase(mesh);
    }

    /** renderMesh after the uniforms: attributes, index buffer, draw. */
    method DrawPhase(mesh: Mesh) returns (r: Outcome)
      requires used != null
      modifies this`vboPos, this`vboUv, this`vboColor, this`ibos, this`stats, gl, mesh`data, mesh`dirty
      ensures OnlyAt(old(vboPos), vboPos, mesh)
      ensures OnlyAt(old(vboUv), vboUv, mesh)
      ensures OnlyAt(old(vboColor), vboColor, mesh)
      ensures var p := AttributePass(old(ViewOf(mesh)), used.attributes, mesh.keepData, old(mesh.dirty), mesh.usage);
        && (p.outcome.Thrown? ==>
              && r == p.outcome && gl.log == old(gl.log) + p.commands
              && ViewOf(mesh) == p.view && mesh.dirty == old(mesh.dirty) && ibos == old(ibos)
              && stats == old(stats).(vboCount := old(stats.vboCount) + p.count))
        && (p.outcome.Done? ==>
              var cached := Lookup(old(ibos), mesh);
              && r == Done
              && gl.log == old(gl.log) + p.commands
                   + IndexCommands(cached, p.view.next, mesh.indices, old(mesh.dirty), mesh.usage)
                   + DrawCommands(mesh.primitive, mesh.offset, mesh.length, mesh.indices)
              && ViewOf(mesh).(next := p.view.next) == p.view
              && gl.next == p.view.next + (if cached.Some? then 0 else 1)
              && ibos == old(ibos)[mesh := if cached.Some? then cached.value else p.view.next]
              && !mesh.dirty
              && stats == old(stats).(vboCount := old(stats.vboCount) + |used.attributes|,
                                      vertices := old(stats.vertices) + mesh.length))
    {
      ghost var p := AttributePass(ViewOf(mesh), used.attributes, mesh.keepData, mesh.dirty, mesh.usage);
      r := BindAttributes(mesh);
      if r.Thrown? {
        return;
      }
      AttributePassCounts(old(ViewOf(mesh)), used.attributes, mesh.keepData, mesh.dirty, mesh.usage);
      assert stats == old(stats).(vboCount := old(stats.vboCount) + |used.attributes|);
      IndexAndDraw(mesh);
    }

    /** The rest of renderMesh once the attributes are bound: the index
        buffer, the dirty flag, the draw call and the vertex count. */
    method IndexAndDraw(mesh: Mesh)
      modifies this`ibos, this`stats, gl, mesh`dirty
      ensures var cached := Lookup(old(ibos), mesh);
        && gl.log == old(gl.log) + IndexCommands(cached, old(gl.next), mesh.indices, old(mesh.dirty), mesh.usage)
             + DrawCommands(mesh.primitive, mesh.offset, mesh.length, mesh.indices)
        && gl.next == old(gl.next) + (if cached.Some? then 0 else 1)
        && ibos == old(ibos)[mesh := if cached.Some? then cached.value else old(gl.next)]
        && !mesh.dirty
        && stats == old(stats).(vertices := old(stats.vertices) + mesh.length)
    {
      BindIndices(mesh);
      mesh.dirty := false;
      DrawMesh(mesh);
      stats := stats.(vertices := stats.vertices + mesh.length);
    }

    /** The end-of-frame error check (debug is always on). */
    method EndFrame()
      modifies gl`log
      ensures gl.log == old(gl.log) + [CheckError]
    {
      gl.Emit(CheckError);
    }
  }
}
