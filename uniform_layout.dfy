/** How updateUniforms marshals uniform values: which upload call each type
    tag maps to, and how matrix arrays are laid out in the shared scratch
    float buffer (matbuffer) before upload. Float contents are opaque. */
module UniformLayout {
  import opened GL
  import opened Resources

  /** The capacity of matbuffer, in floats (16 * 1000). */
  const ScratchCapacity: nat := 16000

  /** Matrices stored one after another, in order. */
  function Flatten(ms: seq<seq<Float>>): seq<Float> {
    if ms == [] then [] else Flatten(ms[..|ms| - 1]) + ms[|ms| - 1]
  }

  lemma MulStep(stride: nat, i: nat)
    ensures stride * (i + 1) == stride * i + stride
  {
  }

  lemma MulMono(stride: nat, i: nat, j: nat)
    requires i <= j
    ensures stride * i <= stride * j
  {
  }

  /** n matrices of `stride` floats occupy stride * n floats. */
  lemma {:induction false} FlattenLength(ms: seq<seq<Float>>, stride: nat)
    requires forall j :: 0 <= j < |ms| ==> |ms[j]| == stride
    ensures |Flatten(ms)| == stride * |ms|
  {
    if ms != [] {
      FlattenLength(ms[..|ms| - 1], stride);
      MulStep(stride, |ms| - 1);
    }
  }

  /** Element k of matrix i sits at offset stride * i + k. */
  lemma {:induction false} FlattenAt(ms: seq<seq<Float>>, stride: nat, i: nat, k: nat)
    requires forall j :: 0 <= j < |ms| ==> |ms[j]| == stride
    requires i < |ms| && k < stride
    ensures stride * i + k < |Flatten(ms)| && Flatten(ms)[stride * i + k] == ms[i][k]
  {
    var n := |ms|;
    var init := ms[..n - 1];
    FlattenLength(init, stride);
    assert Flatten(ms) == Flatten(init) + ms[n - 1];
    MulStep(stride, n - 1);
    if i < n - 1 {
      FlattenAt(init, stride, i, k);
      MulStep(stride, i);
      MulMono(stride, i + 1, n - 1);
    }
  }

  lemma {:induction false} FlattenAppend(ms: seq<seq<Float>>, m: seq<Float>)
    ensures Flatten(ms + [m]) == Flatten(ms) + m
  {
    assert (ms + [m])[..|ms + [m]| - 1] == ms;
  }

  /** True when marshaling the value overruns matbuffer (the source throws). */
  predicate Overflows(v: UniformValue)
    ensures Overflows(v) ==> v.UMatrix3Array? || v.UMatrix4Array?
  {
    (v.UMatrix3Array? && 9 * |v.ms3| > ScratchCapacity) ||
    (v.UMatrix4Array? && 16 * |v.ms4| > ScratchCapacity)
  }

  /** The upload call updateUniforms makes for a value at location `loc`.
      A single Matrix3 carries its 9 floats, as evidently intended (as
      written it carries none: Findings.Matrix3Marshal). */
  function UniformUpload(loc: int, v: UniformValue): (r: seq<Command>)
    requires !Overflows(v)
    ensures |r| == 1
    ensures (r[0].Uniform1f? || r[0].Uniform1i? || r[0].Uniform2f? || r[0].Uniform3f? || r[0].Uniform4f?
             || r[0].UniformMatrix3fv? || r[0].UniformMatrix4fv?) && r[0].location == loc
    ensures r[0].UniformMatrix3fv? <==> v.UMatrix3? || v.UMatrix3Array?
    ensures r[0].UniformMatrix4fv? <==> v.UMatrix4? || v.UMatrix4Array?
  {
    match v
    case UFloat(x) => [Uniform1f(loc, x)]
    case USampler2D(i) => [Uniform1i(loc, i)]
    case UInteger(i) => [Uniform1i(loc, i)]
    case UVector2(x, y) => [Uniform2f(loc, x, y)]
    case UVector3(x, y, z) => [Uniform3f(loc, x, y, z)]
    case UVector4(x, y, z, w) => [Uniform4f(loc, x, y, z, w)]
    case UMatrix3(m) => [UniformMatrix3fv(loc, m)]
    case UMatrix3Array(ms) => [UniformMatrix3fv(loc, Flatten(ms))]
    case UMatrix4(m) => [UniformMatrix4fv(loc, m)]
    case UMatrix4Array(ms) => [UniformMatrix4fv(loc, Flatten(ms))]
  }

  /** Matrix4Array: 16n floats, matrix i at offset 16i; Matrix3Array: 9n and 9i;
      Matrix4 and Matrix3: exactly their 16 and 9 floats. Every value is uploaded with exactly one call. */
  lemma UniformUploadLayout(loc: int, v: UniformValue)
    requires !Overflows(v)
    ensures |UniformUpload(loc, v)| == 1
    ensures v.UMatrix4Array? ==>
      var fs := UniformUpload(loc, v)[0].floats;
      |fs| == 16 * |v.ms4| <= ScratchCapacity &&
      forall i, k :: 0 <= i < |v.ms4| && 0 <= k < 16 ==> fs[16 * i + k] == v.ms4[i][k]
    ensures v.UMatrix3Array? ==>
      var fs := UniformUpload(loc, v)[0].floats;
      |fs| == 9 * |v.ms3| <= ScratchCapacity &&
      forall i, k :: 0 <= i < |v.ms3| && 0 <= k < 9 ==> fs[9 * i + k] == v.ms3[i][k]
    ensures v.UMatrix4? ==> UniformUpload(loc, v)[0].floats == v.m4 && |v.m4| == 16
    ensures v.UMatrix3? ==> UniformUpload(loc, v)[0].floats == v.m3 && |v.m3| == 9
  {
    match v
    case UMatrix4Array(ms) =>
      FlattenLength(ms, 16);
      forall i, k | 0 <= i < |ms| && 0 <= k < 16 ensures Flatten(ms)[16 * i + k] == ms[i][k] {
        FlattenAt(ms, 16, i, k);
      }
    case UMatrix3Array(ms) =>
      FlattenLength(ms, 9);
      forall i, k | 0 <= i < |ms| && 0 <= k < 9 ensures Flatten(ms)[9 * i + k] == ms[i][k] {
        FlattenAt(ms, 9, i, k);
      }
    case _ =>
  }

  /** Every uniform of `us`, in order: look the location up, then upload. */
  function UniformsCommands(program: Handle, locate: (Handle, string) -> int, us: seq<Uniform>): seq<Command>
    requires forall j :: 0 <= j < |us| ==> !Overflows(us[j].value)
  {
    if us == [] then []
    else
      var u := us[|us| - 1];
      UniformsCommands(program, locate, us[..|us| - 1])
        + [GetUniformLocation(program, u.name)] + UniformUpload(locate(program, u.name), u.value)
  }

  /** One more uniform extends the commands of a prefix by its lookup and upload. */
  lemma UniformsCommandsSnoc(program: Handle, locate: (Handle, string) -> int, us: seq<Uniform>, i: nat)
    requires i < |us| && forall j :: 0 <= j <= i ==> !Overflows(us[j].value)
    ensures UniformsCommands(program, locate, us[..i + 1]) ==
      UniformsCommands(program, locate, us[..i]) + [GetUniformLocation(program, us[i].name)]
        + UniformUpload(locate(program, us[i].name), us[i].value)
  {
    assert us[..i + 1][..i] == us[..i];
  }

  /** Each uniform contributes exactly two commands: its location lookup and its upload. */
  lemma {:induction false} UniformsCommandsShape(program: Handle, locate: (Handle, string) -> int, us: seq<Uniform>)
    requires forall j :: 0 <= j < |us| ==> !Overflows(us[j].value)
    ensures |UniformsCommands(program, locate, us)| == 2 * |us|
    ensures forall j :: 0 <= j < |us| ==>
      UniformsCommands(program, locate, us)[2 * j] == GetUniformLocation(program, us[j].name)
  {
    if us != [] {
      var n := |us|;
      UniformsCommandsShape(program, locate, us[..n - 1]);
      UniformUploadLayout(locate(program, us[n - 1].name), us[n - 1].value);
      forall j | 0 <= j < n
        ensures UniformsCommands(program, locate, us)[2 * j] == GetUniformLocation(program, us[j].name)
      {
        if j < n - 1 {
          assert us[..n - 1][j] == us[j];
        }
      }
    }
  }

  /** How many uniforms, from the front, can be marshaled before the first
      one that overruns matbuffer: all of them when none does. */
  function CleanPrefix(us: seq<Uniform>): (k: nat)
    ensures k <= |us|
    ensures forall j :: 0 <= j < k ==> !Overflows(us[j].value)
    ensures k < |us| ==> Overflows(us[k].value)
  {
    if us == [] then 0
    else if Overflows(us[0].value) then 0
    else 1 + CleanPrefix(us[1..])
  }

  /** The clean prefix is the first overflow's index: any index before which
      nothing overflows and at which something does is it. */
  lemma CleanPrefixFirst(us: seq<Uniform>, i: nat)
    requires i < |us| && Overflows(us[i].value)
    requires forall j :: 0 <= j < i ==> !Overflows(us[j].value)
    ensures CleanPrefix(us) == i
  {
  }
}
