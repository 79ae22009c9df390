/** The resource descriptors the application hands to the renderer. They are
    owned by the application; the renderer only reads their content and
    updates their dirty flags and host buffers. */
module Resources {
  import opened GL

  datatype TextureFormat = Red | Rgb | Rgba | Depth
  datatype TextureFilter = Linear | Nearest
  datatype TextureWrap = Clamp | Repeat
  datatype Primitive = Triangles | TriangleStrp
  datatype MeshUsage = Static | Dynamic | Stream

  /** The vertex attribute kinds, in declaration order. */
  datatype Attribute = Position | Normal | Uv | Color

  /** Attribute.values(). */
  const AllAttributes: seq<Attribute> := [Position, Normal, Uv, Color]

  /** The fixed slot of an attribute kind (its declaration ordinal). */
  function Id(a: Attribute): (r: int)
    ensures 0 <= r < |AllAttributes| && AllAttributes[r] == a
  {
    match a
    case Position => 0
    case Normal => 1
    case Uv => 2
    case Color => 3
  }

  /** The component count of an attribute kind. */
  function Size(a: Attribute): (r: int)
    ensures 2 <= r <= 4
  {
    match a
    case Position => 3
    case Normal => 3
    case Uv => 2
    case Color => 4
  }

  /** The name the attribute is bound to in GLSL. */
  function Name(a: Attribute): string {
    match a
    case Position => "a_position"
    case Normal => "a_normal"
    case Uv => "a_uv"
    case Color => "a_color"
  }

  type Mat3 = m: seq<Float> | |m| == 9 witness seq(9, _ => Float(0))
  type Mat4 = m: seq<Float> | |m| == 16 witness seq(16, _ => Float(0))

  /** A uniform's type tag together with a value of that type. */
  datatype UniformValue =
    | UFloat(x: Float)
    | USampler2D(i: int)
    | UInteger(i: int)
    | UVector2(x: Float, y: Float)
    | UVector3(x: Float, y: Float, z: Float)
    | UVector4(x: Float, y: Float, z: Float, w: Float)
    | UMatrix3(m3: Mat3)
    | UMatrix3Array(ms3: seq<Mat3>)
    | UMatrix4(m4: Mat4)
    | UMatrix4Array(ms4: seq<Mat4>)

  datatype Uniform = Uniform(name: string, value: UniformValue)

  class Texture {
    var width: int
    var height: int
    var format: TextureFormat
    /** The host pixel buffer; None once released. */
    var data: Option<seq<bv8>>
    var min: TextureFilter
    var mag: TextureFilter
    var wrapU: TextureWrap
    var wrapV: TextureWrap
    var dataDirty: bool
    var paramsDirty: bool
    var keepData: bool

    constructor (width: int, height: int, format: TextureFormat, data: Option<seq<bv8>>,
                 min: TextureFilter, mag: TextureFilter, wrapU: TextureWrap, wrapV: TextureWrap,
                 keepData: bool)
      ensures this.width == width && this.height == height && this.format == format
      ensures this.data == data && this.keepData == keepData
      ensures this.min == min && this.mag == mag && this.wrapU == wrapU && this.wrapV == wrapV
      ensures dataDirty && paramsDirty
    {
      this.width, this.height, this.format := width, height, format;
      this.data, this.keepData := data, keepData;
      this.min, this.mag, this.wrapU, this.wrapV := min, mag, wrapU, wrapV;
      dataDirty, paramsDirty := true, true;
    }
  }

  class Mesh {
    /** Host vertex data per attribute kind; a missing key is a null buffer. */
    var data: map<Attribute, FloatData>
    /** The index buffer; None when it is null or not an Int/Short/Byte buffer. */
    var indices: Option<IndexData>
    var primitive: Primitive
    var usage: MeshUsage
    var offset: int
    var length: int
    var dirty: bool
    var keepData: bool

    constructor (data: map<Attribute, FloatData>, indices: Option<IndexData>, primitive: Primitive,
                 usage: MeshUsage, offset: int, length: int, keepData: bool)
      ensures this.data == data && this.indices == indices && this.primitive == primitive
      ensures this.usage == usage && this.offset == offset && this.length == length
      ensures this.keepData == keepData && dirty
    {
      this.data, this.indices, this.primitive := data, indices, primitive;
      this.usage, this.offset, this.length := usage, offset, length;
      this.keepData, dirty := keepData, true;
    }
  }

  class ShaderProgram {
    const vertSource: string
    const fragSource: string
    /** The attributes the program consumes, in declared order. */
    const attributes: seq<Attribute>
    /** The uniforms currently set, in iteration order. */
    var uniforms: seq<Uniform>

    constructor (vertSource: string, fragSource: string, attributes: seq<Attribute>)
      ensures this.vertSource == vertSource && this.fragSource == fragSource
      ensures this.attributes == attributes && uniforms == []
    {
      this.vertSource, this.fragSource, this.attributes := vertSource, fragSource, attributes;
      uniforms := [];
    }
  }

  class Framebuffer {
    const width: int
    const height: int
    /** Color targets, attached to COLOR_ATTACHMENT0 + i in this order. */
    const targets: seq<Texture>
    /** The depth target, if any. */
    const depth: Texture?
    /** True while the attachments are not yet bound on the GPU side. */
    var dirty: bool

    constructor (width: int, height: int, targets: seq<Texture>, depth: Texture?)
      ensures this.width == width && this.height == height
      ensures this.targets == targets && this.depth == depth && dirty
    {
      this.width, this.height, this.targets, this.depth := width, height, targets, depth;
      dirty := true;
    }
  }
}
