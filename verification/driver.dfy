/** The state queries the capability code issues against the current context,
    modelled as an oracle of defined values plus the log of queries issued. */
module GlDriver {

  /** `GLint`: a signed 32-bit integer. */
  type GLint = x: int | -0x8000_0000 <= x < 0x8000_0000

  /** `GLenum`: an unsigned 32-bit integer. */
  type GLenum = x: int | 0 <= x < 0x1_0000_0000

  /** `GLboolean`: an unsigned 8-bit integer, zero meaning false. */
  type GLboolean = x: int | 0 <= x < 0x100

  /** `u16`. */
  type U16 = x: int | 0 <= x < 0x1_0000

  datatype Option<T> = None | Some(value: T)

  /** `value as GLenum`: the two's-complement reinterpretation of a signed 32-bit value. */
  function AsGlEnum(x: GLint): (e: GLenum)
    ensures e % 0x1_0000_0000 == x % 0x1_0000_0000
    ensures 0 <= x ==> e == x
  {
    if x < 0 then x + 0x1_0000_0000 else x
  }

  /** `2^n`. */
  function Pow2(n: nat): (p: nat)
    ensures p >= 1
  {
    if n == 0 then 1 else 2 * Pow2(n - 1)
  }

  /** `(flags as GLenum) & mask != 0` for the one-bit mask `mask == 1 << bit`:
      bit `bit` of the flags' two's-complement pattern is set. */
  predicate HasFlag(flags: GLint, bit: nat) {
    AsGlEnum(flags) / Pow2(bit) % 2 == 1
  }

  // Tokens (values as assigned by the OpenGL registry).
  const NONE: GLenum := 0
  const RENDERER: GLenum := 0x1F01
  const CONTEXT_FLAGS: GLenum := 0x821E
  /** `GL_CONTEXT_FLAG_ROBUST_ACCESS_BIT`, the mask 0x4, as its bit position. */
  const CONTEXT_FLAG_ROBUST_ACCESS_BIT: nat := 2

  /** The robust-access test reads bit 2 of the flags' two's-complement
      pattern: it holds exactly when the signed flags leave a remainder of 4
      to 7 modulo 8, negative flags included. */
  lemma RobustAccessFlag(flags: GLint)
    ensures HasFlag(flags, CONTEXT_FLAG_ROBUST_ACCESS_BIT) <==> flags % 8 >= 4
  {
    assert Pow2(CONTEXT_FLAG_ROBUST_ACCESS_BIT) == 4;
    if flags < 0 {
      assert AsGlEnum(flags) == flags + 8 * 0x2000_0000;
    }
  }

  const CONTEXT_ROBUST_ACCESS: GLenum := 0x90F3
  const RESET_NOTIFICATION_STRATEGY: GLenum := 0x8256
  const LOSE_CONTEXT_ON_RESET: GLenum := 0x8252
  const NO_RESET_NOTIFICATION: GLenum := 0x8261
  /** The out-of-spec reset strategy some AMD drivers report; it means "no notification". */
  const AMD_RESET_STRATEGY_ALIAS: GLenum := 0x31BE
  const CONTEXT_RELEASE_BEHAVIOR: GLenum := 0x82FB
  const CONTEXT_RELEASE_BEHAVIOR_FLUSH: GLenum := 0x82FC
  const STEREO: GLenum := 0x0C33
  const FRAMEBUFFER: GLenum := 0x8D40
  const BACK_LEFT: GLenum := 0x0402
  const DEPTH: GLenum := 0x1801
  const STENCIL: GLenum := 0x1802
  const FRAMEBUFFER_ATTACHMENT_COLOR_ENCODING: GLenum := 0x8210
  const FRAMEBUFFER_ATTACHMENT_OBJECT_TYPE: GLenum := 0x8CD0
  const FRAMEBUFFER_ATTACHMENT_DEPTH_SIZE: GLenum := 0x8216
  const FRAMEBUFFER_ATTACHMENT_STENCIL_SIZE: GLenum := 0x8217
  const SRGB: GLenum := 0x8C40
  const FRAMEBUFFER_SRGB_CAPABLE_EXT: GLenum := 0x8DBA
  const DEPTH_BITS: GLenum := 0x0D56
  const STENCIL_BITS: GLenum := 0x0D57
  const MAX_COMBINED_TEXTURE_IMAGE_UNITS: GLenum := 0x8B4D
  const MAX_TEXTURE_MAX_ANISOTROPY_EXT: GLenum := 0x84FF
  const MAX_TEXTURE_BUFFER_SIZE: GLenum := 0x8C2B
  const MAX_VIEWPORT_DIMS: GLenum := 0x0D3A
  const MAX_DRAW_BUFFERS: GLenum := 0x8824
  const MAX_PATCH_VERTICES: GLenum := 0x8E7D
  const MAX_ATOMIC_COUNTER_BUFFER_BINDINGS: GLenum := 0x92DC
  const MAX_SHADER_STORAGE_BUFFER_BINDINGS: GLenum := 0x90DD
  const MAX_TRANSFORM_FEEDBACK_BUFFERS: GLenum := 0x8E70
  const MAX_TRANSFORM_FEEDBACK_SEPARATE_ATTRIBS_EXT: GLenum := 0x8C8B
  const MAX_UNIFORM_BUFFER_BINDINGS: GLenum := 0x8A2F
  const MAX_COMPUTE_WORK_GROUP_COUNT: GLenum := 0x91BE
  const SHADER_COMPILER: GLenum := 0x8DFA

  /** One state query issued against the context. */
  datatype Query =
    | GetString(name: GLenum)
    | GetIntegerv(pname: GLenum)
    | GetBooleanv(pname: GLenum)
    | GetFloatv(pname: GLenum)
    | GetIntegeri_v(target: GLenum, index: nat)
    | GetFramebufferAttachmentParameteriv(target: GLenum, attachment: GLenum, pname: GLenum)

  /** What the current context answers to each query. Every query succeeds and
      yields a defined value; `integerv(p, k)` is the k-th value written by
      `glGetIntegerv(p)`. */
  datatype Driver = Driver(
    renderer: string,
    integerv: (GLenum, nat) -> GLint,
    booleanv: GLenum -> GLboolean,
    floatv: GLenum -> real,
    integeri_v: (GLenum, nat) -> GLint,
    attachmentParameteriv: (GLenum, GLenum, GLenum) -> GLint)

  /** A value obtained from the context together with the queries issued, in order, to obtain it. */
  datatype Probe<T> = Probe(value: T, issued: seq<Query>)
}
