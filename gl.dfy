/** The graphics API as seen by the renderer: an append-only log of commands,
    a counter that hands out fresh object names, and oracles for the answers
    the driver gives (shader info logs, framebuffer completeness, uniform
    locations). Constant values are opaque tokens; only their distinctness
    matters. */
module GL {

  /** A GL object name. 0 is the default object (the window framebuffer, no program). */
  type Handle = int

  /** A 32-bit pattern standing for one float; floating-point arithmetic is not modelled. */
  datatype Float = Float(bits: bv32)

  /** The constants returned by the LwjglUtils translation functions. */
  datatype Enum =
    | RED | RGB | RGBA | DEPTH_COMPONENT
    | LINEAR | NEAREST
    | CLAMP | REPEAT
    | TRIANGLES | TRIANGLE_STRIP
    | STATIC_DRAW | DYNAMIC_DRAW | STREAM_DRAW

  datatype Capability = BLEND | CULL_FACE | DEPTH_TEST
  datatype BlendFactor = SRC_ALPHA | ONE_MINUS_SRC_ALPHA | ONE
  datatype Face = FRONT | BACK | FRONT_AND_BACK
  datatype PolygonFill = FILL | LINE
  datatype TexParam = MAG_FILTER | MIN_FILTER | WRAP_S | WRAP_T
  datatype ShaderStage = VERTEX_SHADER | FRAGMENT_SHADER
  datatype BufferTarget = ARRAY_BUFFER | ELEMENT_ARRAY_BUFFER
  datatype IndexType = UNSIGNED_INT | UNSIGNED_SHORT | UNSIGNED_BYTE
  /** COLOR_ATTACHMENT0 + index, or the depth attachment point. */
  datatype Attachment = ColorAttachment(index: int) | DepthAttachment
  datatype ObjectKind = TextureObject | BufferObject | ShaderObject | ProgramObject | FramebufferObject

  /** Element width of a host index buffer (IntBuffer, ShortBuffer, ByteBuffer). */
  datatype IndexWidth = Int32 | Int16 | Int8

  /** A host float buffer: its contents and its NIO position. */
  datatype FloatData = FloatData(floats: seq<Float>, position: nat)

  /** A host index buffer of one element width, with its NIO position. */
  datatype IndexData = IndexData(width: IndexWidth, indices: seq<int>, position: nat)

  /** What a BufferData or BufferSubData call hands to the driver. */
  datatype Payload = Vertices(vertices: FloatData) | Indices(indices: IndexData)

  /** One call into the graphics API. */
  datatype Command =
    | Enable(cap: Capability)
    | Disable(cap: Capability)
    | BlendFunc(sfactor: BlendFactor, dfactor: BlendFactor)
    | CullFace(face: Face)
    | PolygonMode(face: Face, fill: PolygonFill)
    | ColorMask(red: bool, green: bool, blue: bool, alpha: bool)
    | DepthMask(flag: bool)
    | Generate(kind: ObjectKind, name: Handle)
    | Delete(kind: ObjectKind, name: Handle)
    | ActiveTexture(unit: int)
    | BindTexture(texture: Handle)
    | TexImage2D(format: Enum, width: int, height: int, pixels: Option<seq<bv8>>)
    | GenerateMipmap
    | TexParameter(param: TexParam, value: Enum)
    | CreateShader(stage: ShaderStage, shader: Handle)
    | ShaderSource(shader: Handle, source: string)
    | CompileShader(shader: Handle)
    | GetShaderInfoLog(shader: Handle)
    | AttachShader(program: Handle, shader: Handle)
    | BindAttribLocation(program: Handle, location: int, attribute: string)
    | LinkProgram(program: Handle)
    | UseProgram(program: Handle)
    | BindFramebuffer(framebuffer: Handle)
    | FramebufferTexture2D(attachment: Attachment, texture: Handle)
    | CheckFramebufferStatus
    | DrawBuffers(buffers: seq<Attachment>)
    | BindBuffer(target: BufferTarget, buffer: Handle)
    | BufferData(target: BufferTarget, data: Payload, usage: Enum)
    | BufferSubData(target: BufferTarget, byteOffset: int, update: Payload)
    | EnableVertexAttribArray(location: int)
    | VertexAttribPointer(location: int, size: int)
    | GetUniformLocation(program: Handle, uniform: string)
    | Uniform1f(location: int, x: Float)
    | Uniform1i(location: int, i: int)
    | Uniform2f(location: int, x: Float, y: Float)
    | Uniform3f(location: int, x: Float, y: Float, z: Float)
    | Uniform4f(location: int, x: Float, y: Float, z: Float, w: Float)
    | UniformMatrix3fv(location: int, floats: seq<Float>)
    | UniformMatrix4fv(location: int, floats: seq<Float>)
    | DrawElements(mode: Enum, count: int, indexType: IndexType, byteOffset: int)
    | CheckError

  datatype Option<T> = None | Some(value: T)

  /** Java's 32-bit int arithmetic: reduce an unbounded integer to the int range. */
  function Int32(x: int): (r: int)
    ensures -0x8000_0000 <= r < 0x8000_0000
    ensures (r - x) % 0x1_0000_0000 == 0
    ensures -0x8000_0000 <= x < 0x8000_0000 ==> r == x
  {
    (x + 0x8000_0000) % 0x1_0000_0000 - 0x8000_0000
  }

  /** Java's `x << k` on an int. */
  function Shl(x: int, k: nat): (r: int)
    ensures -0x8000_0000 <= r < 0x8000_0000
    ensures (r - x * Pow2(k)) % 0x1_0000_0000 == 0
    ensures -0x8000_0000 <= x * Pow2(k) < 0x8000_0000 ==> r == x * Pow2(k)
  {
    Int32(x * Pow2(k))
  }

  function Pow2(k: nat): nat {
    if k == 0 then 1 else 2 * Pow2(k - 1)
  }

  /** True when `next` maps every key of `prev` to the same value: a cache that only grows. */
  ghost predicate Grows<K, V>(prev: map<K, V>, next: map<K, V>) {
    forall k :: k in prev ==> k in next && next[k] == prev[k]
  }

  /** The driver. Every call appends to `log`; object names come from `next`. */
  class Context {
    var log: seq<Command>
    var next: Handle
    /** The info log the compiler produces for a shader stage and source text. */
    const compileLog: (ShaderStage, string) -> string
    /** glCheckFramebufferStatus == GL_FRAMEBUFFER_COMPLETE, as a function of everything issued so far. */
    const framebufferComplete: seq<Command> -> bool
    /** glGetUniformLocation. */
    const uniformLocation: (Handle, string) -> int

    constructor (compileLog: (ShaderStage, string) -> string,
                 framebufferComplete: seq<Command> -> bool,
                 uniformLocation: (Handle, string) -> int)
      ensures log == [] && next == 1
      ensures this.compileLog == compileLog
      ensures this.framebufferComplete == framebufferComplete
      ensures this.uniformLocation == uniformLocation
    {
      log := [];
      next := 1;
      this.compileLog := compileLog;
      this.framebufferComplete := framebufferComplete;
      this.uniformLocation := uniformLocation;
    }

    /** Issue one command that returns nothing. */
    method Emit(c: Command)
      modifies this`log
      ensures log == old(log) + [c]
    {
      log := log + [c];
    }

    /** glGen* / glCreateProgram: a fresh, never-used name. */
    method Gen(kind: ObjectKind) returns (h: Handle)
      modifies this
      ensures h == old(next) && next == old(next) + 1
      ensures log == old(log) + [Generate(kind, h)]
    {
      h := next;
      next := next + 1;
      log := log + [Generate(kind, h)];
    }

    /** glCreateShader(stage): a fresh shader name. */
    method CreateShaderObject(stage: ShaderStage) returns (h: Handle)
      modifies this
      ensures h == old(next) && next == old(next) + 1
      ensures log == old(log) + [CreateShader(stage, h)]
    {
      h := next;
      next := next + 1;
      log := log + [CreateShader(stage, h)];
    }

    /** glGetShaderInfoLog: the compiler's verdict on the given stage and source. */
    method ShaderInfoLog(shader: Handle, stage: ShaderStage, source: string) returns (info: string)
      modifies this`log
      ensures info == compileLog(stage, source)
      ensures log == old(log) + [GetShaderInfoLog(shader)]
    {
      log := log + [GetShaderInfoLog(shader)];
      info := compileLog(stage, source);
    }

    /** glCheckFramebufferStatus compared with GL_FRAMEBUFFER_COMPLETE. */
    method FramebufferStatus() returns (complete: bool)
      modifies this`log
      ensures complete == framebufferComplete(old(log))
      ensures log == old(log) + [CheckFramebufferStatus]
    {
      complete := framebufferComplete(log);
      log := log + [CheckFramebufferStatus];
    }

    /** glGetUniformLocation. */
    method UniformLocation(program: Handle, name: string) returns (loc: int)
      modifies this`log
      ensures loc == uniformLocation(program, name)
      ensures log == old(log) + [GetUniformLocation(program, name)]
    {
      log := log + [GetUniformLocation(program, name)];
      loc := uniformLocation(program, name);
    }
  }
}
