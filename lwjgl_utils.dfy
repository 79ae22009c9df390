/** Translation of the engine's closed enumerations into GL constants, and
    shader compilation. The enumerations are closed datatypes, so every match
    below is exhaustive and the source's `default: throw` arms have no
    counterpart: the type checker rejects a match that misses a case. */
module LwjglUtils {
  import opened GL
  import opened Resources

  function TextureFormat2int(format: TextureFormat): (r: Enum)
    ensures r in {RED, RGB, RGBA, DEPTH_COMPONENT}
  {
    match format
    case Red => RED
    case Rgb => RGB
    case Rgba => RGBA
    case Depth => DEPTH_COMPONENT
  }

  function Filter2int(filter: TextureFilter): (r: Enum)
    ensures r in {LINEAR, NEAREST}
  {
    match filter
    case Linear => LINEAR
    case Nearest => NEAREST
  }

  function Wrap2int(wrap: TextureWrap): (r: Enum)
    ensures r in {CLAMP, REPEAT}
  {
    match wrap
    case Clamp => CLAMP
    case Repeat => REPEAT
  }

  function Primitive2int(p: Primitive): (r: Enum)
    ensures r in {TRIANGLES, TRIANGLE_STRIP}
  {
    match p
    case Triangles => TRIANGLES
    case TriangleStrp => TRIANGLE_STRIP
  }

  function Usage2int(u: MeshUsage): (r: Enum)
    ensures r in {STATIC_DRAW, DYNAMIC_DRAW, STREAM_DRAW}
  {
    match u
    case Static => STATIC_DRAW
    case Dynamic => DYNAMIC_DRAW
    case Stream => STREAM_DRAW
  }

  // Reference inverses: which enumeration value a GL constant stands for.

  function FormatOf(e: Enum): Option<TextureFormat> {
    match e
    case RED => Some(Red)
    case RGB => Some(Rgb)
    case RGBA => Some(Rgba)
    case DEPTH_COMPONENT => Some(Depth)
    case _ => None
  }

  function FilterOf(e: Enum): Option<TextureFilter> {
    match e
    case LINEAR => Some(Linear)
    case NEAREST => Some(Nearest)
    case _ => None
  }

  function WrapOf(e: Enum): Option<TextureWrap> {
    match e
    case CLAMP => Some(Clamp)
    case REPEAT => Some(Repeat)
    case _ => None
  }

  function PrimitiveOf(e: Enum): Option<Primitive> {
    match e
    case TRIANGLES => Some(Triangles)
    case TRIANGLE_STRIP => Some(TriangleStrp)
    case _ => None
  }

  function UsageOf(e: Enum): Option<MeshUsage> {
    match e
    case STATIC_DRAW => Some(Static)
    case DYNAMIC_DRAW => Some(Dynamic)
    case STREAM_DRAW => Some(Stream)
    case _ => None
  }

  /** The format mapping is total, inverted by FormatOf, and hence injective. */
  lemma TextureFormatRoundTrip()
    ensures forall f :: FormatOf(TextureFormat2int(f)) == Some(f)
    ensures forall e, f :: FormatOf(e) == Some(f) ==> TextureFormat2int(f) == e
    ensures forall f, g :: TextureFormat2int(f) == TextureFormat2int(g) ==> f == g
  {
  }

  lemma FilterRoundTrip()
    ensures forall f :: FilterOf(Filter2int(f)) == Some(f)
    ensures forall e, f :: FilterOf(e) == Some(f) ==> Filter2int(f) == e
    ensures forall f, g :: Filter2int(f) == Filter2int(g) ==> f == g
  {
  }

  lemma WrapRoundTrip()
    ensures forall w :: WrapOf(Wrap2int(w)) == Some(w)
    ensures forall e, w :: WrapOf(e) == Some(w) ==> Wrap2int(w) == e
    ensures forall v, w :: Wrap2int(v) == Wrap2int(w) ==> v == w
  {
  }

  lemma PrimitiveRoundTrip()
    ensures forall p :: PrimitiveOf(Primitive2int(p)) == Some(p)
    ensures forall e, p :: PrimitiveOf(e) == Some(p) ==> Primitive2int(p) == e
    ensures forall p, q :: Primitive2int(p) == Primitive2int(q) ==> p == q
  {
  }

  lemma UsageRoundTrip()
    ensures forall u :: UsageOf(Usage2int(u)) == Some(u)
    ensures forall e, u :: UsageOf(e) == Some(u) ==> Usage2int(u) == e
    ensures forall u, v :: Usage2int(u) == Usage2int(v) ==> u == v
  {
  }

  /** The outcome of compiling one shader stage. */
  datatype CompileResult = Compiled(shader: Handle) | CompileError(log: string)

  /** The calls getShader makes for shader name `h`. */
  function CompileCommands(stage: ShaderStage, h: Handle, source: string): seq<Command> {
    [CreateShader(stage, h), ShaderSource(h, source), CompileShader(h), GetShaderInfoLog(h)]
  }

  /** Every call addresses the one shader `h`: it is created first, given the
      source and compiled, and its info log is read last. */
  lemma CompileCommandsShape(stage: ShaderStage, h: Handle, source: string)
    ensures var r := CompileCommands(stage, h, source);
      && |r| == 4 && r[0] == CreateShader(stage, h) && r[3] == GetShaderInfoLog(h)
      && ShaderSource(h, source) in r && CompileShader(h) in r
      && forall c :: c in r ==>
           (c.CreateShader? || c.ShaderSource? || c.CompileShader? || c.GetShaderInfoLog?) && c.shader == h
  {
  }

  /** Create, source and compile a shader; a non-empty info log is an error
      (the created shader is not deleted). */
  method GetShader(gl: Context, stage: ShaderStage, source: string) returns (r: CompileResult)
    modifies gl
    ensures gl.next == old(gl.next) + 1
    ensures gl.log == old(gl.log) + CompileCommands(stage, old(gl.next), source)
    ensures gl.compileLog(stage, source) == "" ==> r == Compiled(old(gl.next))
    ensures gl.compileLog(stage, source) != "" ==> r == CompileError(gl.compileLog(stage, source))
  {
    var shader := gl.CreateShaderObject(stage);
    gl.Emit(ShaderSource(shader, source));
    gl.Emit(CompileShader(shader));
    var log := gl.ShaderInfoLog(shader, stage, source);
    if log != "" {
      return CompileError(log);
    }
    return Compiled(shader);
  }
}
