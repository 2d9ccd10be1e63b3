/** The capabilities of a context: one record, resolved field by field from the
    context version, its extensions and the answers of the driver. */
module ContextCapabilities {
  import opened GlVersion
  import opened GlExtensions
  import opened Gates
  import opened GlDriver
  import opened Glsl

  /** What happens when another context is made current. */
  datatype ReleaseBehavior =
    | None    // nothing is done
    | Flush   // the command queue of the current context is flushed

  /** A queried enum that matches none of the documented tokens: the source
      treats it as unreachable and aborts the resolution. */
  datatype Fault =
    | UnknownResetNotificationStrategy(raw: GLenum)
    | UnknownReleaseBehavior(raw: GLenum)

  datatype Result<T> = Ok(value: T) | Unreachable(fault: Fault)

  datatype Capabilities = Capabilities(
    supportedGlslVersions: seq<Version>,
    robustness: bool,
    canLoseContext: bool,
    releaseBehavior: ReleaseBehavior,
    stereo: bool,
    srgb: bool,
    depthBits: Option<U16>,
    stencilBits: Option<U16>,
    maxCombinedTextureImageUnits: GLint,
    maxTextureMaxAnisotropy: Option<real>,
    maxTextureBufferSize: Option<GLint>,
    maxViewportDims: (GLint, GLint),
    maxDrawBuffers: GLint,
    maxPatchVertices: Option<GLint>,
    maxIndexedAtomicCounterBuffer: GLint,
    maxIndexedShaderStorageBuffer: GLint,
    maxIndexedTransformFeedbackBuffer: GLint,
    maxIndexedUniformBuffer: GLint,
    maxComputeWorkGroupCount: (GLint, GLint, GLint))

  // ---------------------------------------------------------------------------
  // The gate table: one gate per field, or an ordered list where alternatives
  // lead to different queries.

  /** Robustness: the context-flags bit, else the robust-access boolean. */
  const ROBUSTNESS_GATES: seq<Gate> := [
    Either(Since(OpenGl(4, 5)), Either(Since(OpenGlEs(3, 2)), Both(Since(OpenGl(3, 0)), Has(GL_ARB_robustness)))),
    Either(Has(GL_KHR_robustness), Has(GL_EXT_robustness))
  ]
  const CAN_LOSE_CONTEXT_GATE: Gate :=
    Either(Since(OpenGl(4, 5)), Either(Has(GL_KHR_robustness), Either(Has(GL_ARB_robustness), Has(GL_EXT_robustness))))
  const RELEASE_BEHAVIOR_GATE: Gate := Has(GL_KHR_context_flush_control)
  const STEREO_GATE: Gate := Since(OpenGl(1, 0))
  /** sRGB: the colour encoding of the back buffer, else the extension's boolean. */
  const SRGB_GATES: seq<Gate> := [
    Both(Since(OpenGl(3, 0)), Lacks(GL_EXT_framebuffer_sRGB)),
    Has(GL_EXT_framebuffer_sRGB)
  ]
  /** Depth and stencil sizes are read from the default framebuffer's attachments under this gate, else from the legacy integer state. */
  const ATTACHMENT_QUERY_GATE: Gate := Both(Since(OpenGl(3, 0)), Lacks(GL_ARB_compatibility))
  const ANISOTROPY_GATE: Gate := Has(GL_EXT_texture_filter_anisotropic)
  const TEXTURE_BUFFER_GATE: Gate :=
    Either(Since(OpenGl(3, 0)), Either(Has(GL_ARB_texture_buffer_object),
      Either(Has(GL_EXT_texture_buffer_object), Either(Has(GL_OES_texture_buffer), Has(GL_EXT_texture_buffer)))))
  const DRAW_BUFFERS_GATE: Gate :=
    Either(Since(OpenGl(2, 0)), Either(Since(OpenGlEs(3, 0)), Either(Has(GL_ATI_draw_buffers), Has(GL_ARB_draw_buffers))))
  const PATCH_VERTICES_GATE: Gate := Either(Since(OpenGl(4, 0)), Has(GL_ARB_tessellation_shader))
  const ATOMIC_COUNTER_GATE: Gate := Since(OpenGl(4, 2))
  const SHADER_STORAGE_GATE: Gate := Either(Since(OpenGl(4, 3)), Has(GL_ARB_shader_storage_buffer_object))
  /** Transform feedback: the indexed buffer count, else the separate-attribute count. */
  const TRANSFORM_FEEDBACK_GATES: seq<Gate> := [
    Either(Since(OpenGl(4, 0)), Has(GL_ARB_transform_feedback3)),
    Either(Since(OpenGl(3, 0)), Has(GL_EXT_transform_feedback))
  ]
  const UNIFORM_BUFFER_GATE: Gate := Either(Since(OpenGl(3, 1)), Has(GL_ARB_uniform_buffer_object))
  const COMPUTE_GATE: Gate := Either(Since(OpenGl(4, 3)), Either(Since(OpenGlEs(3, 1)), Has(GL_ARB_compute_shader)))

  // Fallbacks of the fields whose gate fails.
  const DEFAULT_RELEASE_BEHAVIOR: ReleaseBehavior := Flush
  const DEFAULT_DRAW_BUFFERS: GLint := 1
  const DEFAULT_BINDINGS: GLint := 0
  const DEFAULT_COMPUTE_WORK_GROUP_COUNT: (GLint, GLint, GLint) := (0, 0, 0)

  /** Some Radeon drivers crash when texture units from this one on are used. */
  const RADEON_TEXTURE_UNIT_LIMIT: GLint := 32

  // ---------------------------------------------------------------------------
  // Normalisation

  /** Decodes the reset-notification strategy into "the context can be lost".
      The out-of-spec value some AMD drivers report is read as "no notification". */
  function DecodeResetStrategy(raw: GLint): (r: Result<bool>)
    ensures r.Ok? <==> AsGlEnum(raw) in {LOSE_CONTEXT_ON_RESET, NO_RESET_NOTIFICATION, AMD_RESET_STRATEGY_ALIAS}
    ensures r == Ok(true) <==> AsGlEnum(raw) == LOSE_CONTEXT_ON_RESET
    ensures r.Unreachable? ==> r.fault == UnknownResetNotificationStrategy(AsGlEnum(raw))
  {
    match AsGlEnum(raw)
    case LOSE_CONTEXT_ON_RESET => Ok(true)
    case NO_RESET_NOTIFICATION => Ok(false)
    case AMD_RESET_STRATEGY_ALIAS => Ok(false)
    case other => Unreachable(UnknownResetNotificationStrategy(other))
  }

  /** The documented token of a reset strategy. */
  function ResetStrategyToken(canLose: bool): GLenum {
    if canLose then LOSE_CONTEXT_ON_RESET else NO_RESET_NOTIFICATION
  }

  function DecodeReleaseBehavior(raw: GLint): (r: Result<ReleaseBehavior>)
    ensures r.Ok? <==> AsGlEnum(raw) in {NONE, CONTEXT_RELEASE_BEHAVIOR_FLUSH}
    ensures r == Ok(Flush) <==> AsGlEnum(raw) == CONTEXT_RELEASE_BEHAVIOR_FLUSH
    ensures r.Unreachable? ==> r.fault == UnknownReleaseBehavior(AsGlEnum(raw))
  {
    match AsGlEnum(raw)
    case NONE => Ok(ReleaseBehavior.None)
    case CONTEXT_RELEASE_BEHAVIOR_FLUSH => Ok(Flush)
    case other => Unreachable(UnknownReleaseBehavior(other))
  }

  /** The documented token of a release behaviour. */
  function ReleaseBehaviorToken(b: ReleaseBehavior): GLenum {
    match b
    case None => NONE
    case Flush => CONTEXT_RELEASE_BEHAVIOR_FLUSH
  }

  /** Decoding inverts the documented tokens. */
  lemma DecodersInvertTokens(canLose: bool, b: ReleaseBehavior)
    ensures DecodeResetStrategy(ResetStrategyToken(canLose)) == Ok(canLose)
    ensures DecodeReleaseBehavior(ReleaseBehaviorToken(b)) == Ok(b)
  {
  }

  /** A bit count: zero means the buffer is absent; any other value is kept
      modulo 2^16, as a cast to `u16` does. */
  function BitsOf(raw: GLint): (bits: Option<U16>)
    ensures bits.None? <==> raw == 0
    ensures bits.Some? ==> (bits.value - raw) % 0x1_0000 == 0
    ensures 0 < raw < 0x1_0000 ==> bits == Some(raw)
  {
    if raw == 0 then Option.None else Some(raw % 0x1_0000)
  }

  /** Whether `sub` occurs in `s`, searching from the front. */
  function Contains(s: string, sub: string): (r: bool)
    ensures r ==> |sub| <= |s|
    ensures |sub| <= |s| && s[..|sub|] == sub ==> r
    decreases |s|
  {
    if |s| < |sub| then false
    else s[..|sub|] == sub || Contains(s[1..], sub)
  }

  /** `sub` occurs in `s` at position `i`. */
  predicate OccursAt(s: string, sub: string, i: int) {
    0 <= i <= |s| - |sub| && s[i..i + |sub|] == sub
  }

  /** The search finds `sub` exactly when it occurs somewhere in `s`. */
  lemma {:induction false} ContainsIffOccurs(s: string, sub: string)
    ensures Contains(s, sub) <==> exists i :: OccursAt(s, sub, i)
    decreases |s|
  {
    if |s| < |sub| {
      assert forall i :: !OccursAt(s, sub, i);
    } else if s[..|sub|] == sub {
      assert OccursAt(s, sub, 0);
    } else {
      var tail := s[1..];
      ContainsIffOccurs(tail, sub);
      if Contains(tail, sub) {
        var i :| OccursAt(tail, sub, i);
        assert s[i + 1..i + 1 + |sub|] == tail[i..i + |sub|];
        assert OccursAt(s, sub, i + 1);
      }
      if exists i :: OccursAt(s, sub, i) {
        var i :| OccursAt(s, sub, i);
        assert i != 0;
        assert tail[i - 1..i - 1 + |sub|] == s[i..i + |sub|];
        assert OccursAt(tail, sub, i - 1);
      }
    }
  }

  function Min(a: int, b: int): (m: int)
    ensures m <= a && m <= b
    ensures m == a || m == b
  {
    if a < b then a else b
  }

  // ---------------------------------------------------------------------------
  // Field resolvers. Each returns the field's value and the queries issued.

  /** A limit read with `glGetIntegerv` when its gate holds, else a fallback
      obtained without asking the driver. */
  function LimitOr(d: Driver, v: Version, exts: ExtensionsList, gate: Gate, pname: GLenum, fallback: GLint): (p: Probe<GLint>)
    ensures Holds(gate, v, exts) ==> p == Probe(d.integerv(pname, 0), [GetIntegerv(pname)])
    ensures !Holds(gate, v, exts) ==> p == Probe(fallback, [])
  {
    if Holds(gate, v, exts) then Probe(d.integerv(pname, 0), [GetIntegerv(pname)]) else Probe(fallback, [])
  }

  /** A limit that exists only when its gate holds. */
  function OptionalLimit(d: Driver, v: Version, exts: ExtensionsList, gate: Gate, pname: GLenum): (p: Probe<Option<GLint>>)
    ensures p.value.Some? <==> Holds(gate, v, exts)
    ensures p.value.Some? ==> p.value.value == d.integerv(pname, 0)
    ensures p.issued == (if p.value.Some? then [GetIntegerv(pname)] else [])
  {
    if Holds(gate, v, exts) then Probe(Some(d.integerv(pname, 0)), [GetIntegerv(pname)]) else Probe(Option.None, [])
  }

  function Robustness(d: Driver, v: Version, exts: ExtensionsList): (p: Probe<bool>)
    ensures p.value ==> FirstMatch(ROBUSTNESS_GATES, v, exts) < |ROBUSTNESS_GATES|
    ensures |p.issued| == (if FirstMatch(ROBUSTNESS_GATES, v, exts) < |ROBUSTNESS_GATES| then 1 else 0)
  {
    match FirstMatch(ROBUSTNESS_GATES, v, exts)
    case 0 => Probe(HasFlag(d.integerv(CONTEXT_FLAGS, 0), CONTEXT_FLAG_ROBUST_ACCESS_BIT), [GetIntegerv(CONTEXT_FLAGS)])
    case 1 => Probe(d.booleanv(CONTEXT_ROBUST_ACCESS) != 0, [GetBooleanv(CONTEXT_ROBUST_ACCESS)])
    case _ => Probe(false, [])
  }

  function CanLoseContext(d: Driver, v: Version, exts: ExtensionsList): (p: Probe<Result<bool>>)
    ensures p.value == Ok(true) ==>
              Holds(CAN_LOSE_CONTEXT_GATE, v, exts) && AsGlEnum(d.integerv(RESET_NOTIFICATION_STRATEGY, 0)) == LOSE_CONTEXT_ON_RESET
    ensures !Holds(CAN_LOSE_CONTEXT_GATE, v, exts) ==> p == Probe(Ok(false), [])
  {
    if Holds(CAN_LOSE_CONTEXT_GATE, v, exts) then
      Probe(DecodeResetStrategy(d.integerv(RESET_NOTIFICATION_STRATEGY, 0)), [GetIntegerv(RESET_NOTIFICATION_STRATEGY)])
    else
      Probe(Ok(false), [])
  }

  function ReleaseBehaviorOf(d: Driver, v: Version, exts: ExtensionsList): (p: Probe<Result<ReleaseBehavior>>)
    ensures p.value == Ok(ReleaseBehavior.None) ==>
              GL_KHR_context_flush_control in exts && AsGlEnum(d.integerv(CONTEXT_RELEASE_BEHAVIOR, 0)) == NONE
    ensures GL_KHR_context_flush_control !in exts ==> p == Probe(Ok(DEFAULT_RELEASE_BEHAVIOR), [])
  {
    if Holds(RELEASE_BEHAVIOR_GATE, v, exts) then
      Probe(DecodeReleaseBehavior(d.integerv(CONTEXT_RELEASE_BEHAVIOR, 0)), [GetIntegerv(CONTEXT_RELEASE_BEHAVIOR)])
    else
      Probe(Ok(DEFAULT_RELEASE_BEHAVIOR), [])
  }

  function Stereo(d: Driver, v: Version, exts: ExtensionsList): (p: Probe<bool>)
    ensures p.value == (v.AtLeast(OpenGl(1, 0)) && d.booleanv(STEREO) != 0)
    ensures p.value ==> v.api == Gl
    ensures p.issued == (if v.AtLeast(OpenGl(1, 0)) then [GetBooleanv(STEREO)] else [])
  {
    if Holds(STEREO_GATE, v, exts) then Probe(d.booleanv(STEREO) != 0, [GetBooleanv(STEREO)]) else Probe(false, [])
  }

  function Srgb(d: Driver, v: Version, exts: ExtensionsList): (p: Probe<bool>)
    ensures p.value ==> v.AtLeast(OpenGl(3, 0)) || GL_EXT_framebuffer_sRGB in exts
    ensures |p.issued| == (if v.AtLeast(OpenGl(3, 0)) || GL_EXT_framebuffer_sRGB in exts then 1 else 0)
  {
    assert Holds(SRGB_GATES[0], v, exts) <==> v.AtLeast(OpenGl(3, 0)) && GL_EXT_framebuffer_sRGB !in exts;
    assert Holds(SRGB_GATES[1], v, exts) <==> GL_EXT_framebuffer_sRGB in exts;
    match FirstMatch(SRGB_GATES, v, exts)
    case 0 =>
      var encoding := d.attachmentParameteriv(FRAMEBUFFER, BACK_LEFT, FRAMEBUFFER_ATTACHMENT_COLOR_ENCODING);
      Probe(AsGlEnum(encoding) == SRGB,
            [GetFramebufferAttachmentParameteriv(FRAMEBUFFER, BACK_LEFT, FRAMEBUFFER_ATTACHMENT_COLOR_ENCODING)])
    case 1 => Probe(d.booleanv(FRAMEBUFFER_SRGB_CAPABLE_EXT) != 0, [GetBooleanv(FRAMEBUFFER_SRGB_CAPABLE_EXT)])
    case _ => Probe(false, [])
  }

  /** The two attachments of the default framebuffer whose sizes are reported. */
  datatype Attachment = DepthAttachment | StencilAttachment
  {
    function Token(): GLenum {
      match this
      case DepthAttachment => DEPTH
      case StencilAttachment => STENCIL
    }

    /** The attachment parameter holding its size in bits. */
    function SizeParameter(): GLenum {
      match this
      case DepthAttachment => FRAMEBUFFER_ATTACHMENT_DEPTH_SIZE
      case StencilAttachment => FRAMEBUFFER_ATTACHMENT_STENCIL_SIZE
    }

    /** The legacy integer state holding its size in bits. */
    function BitsState(): GLenum {
      match this
      case DepthAttachment => DEPTH_BITS
      case StencilAttachment => STENCIL_BITS
    }
  }

  /** The bit count of an attachment before normalisation. Under the attachment
      gate its object type is asked first, and its size only when an object is
      attached; otherwise the legacy integer state is read. */
  function RawAttachmentBits(d: Driver, v: Version, exts: ExtensionsList, a: Attachment): (p: Probe<GLint>)
    ensures 1 <= |p.issued| <= 2
    ensures |p.issued| == 2 ==> p.issued[1] == GetFramebufferAttachmentParameteriv(FRAMEBUFFER, a.Token(), a.SizeParameter())
  {
    if Holds(ATTACHMENT_QUERY_GATE, v, exts) then
      var typeQuery := GetFramebufferAttachmentParameteriv(FRAMEBUFFER, a.Token(), FRAMEBUFFER_ATTACHMENT_OBJECT_TYPE);
      var objectType := d.attachmentParameteriv(FRAMEBUFFER, a.Token(), FRAMEBUFFER_ATTACHMENT_OBJECT_TYPE);
      if AsGlEnum(objectType) == NONE then
        Probe(0, [typeQuery])
      else
        Probe(d.attachmentParameteriv(FRAMEBUFFER, a.Token(), a.SizeParameter()),
              [typeQuery, GetFramebufferAttachmentParameteriv(FRAMEBUFFER, a.Token(), a.SizeParameter())])
    else
      Probe(d.integerv(a.BitsState(), 0), [GetIntegerv(a.BitsState())])
  }

  function AttachmentBits(d: Driver, v: Version, exts: ExtensionsList, a: Attachment): (p: Probe<Option<U16>>)
    ensures p.value.None? <==> RawAttachmentBits(d, v, exts, a).value == 0
    ensures p.issued == RawAttachmentBits(d, v, exts, a).issued
  {
    var raw := RawAttachmentBits(d, v, exts, a);
    Probe(BitsOf(raw.value), raw.issued)
  }

  /** The texture-unit count, capped for Radeon renderers. */
  function MaxCombinedTextureImageUnits(d: Driver): (p: Probe<GLint>)
    ensures p.issued == [GetIntegerv(MAX_COMBINED_TEXTURE_IMAGE_UNITS)]
    ensures !Contains(d.renderer, "Radeon") ==> p.value == d.integerv(MAX_COMBINED_TEXTURE_IMAGE_UNITS, 0)
    ensures Contains(d.renderer, "Radeon") ==>
              && p.value <= RADEON_TEXTURE_UNIT_LIMIT
              && p.value <= d.integerv(MAX_COMBINED_TEXTURE_IMAGE_UNITS, 0)
              && (p.value == RADEON_TEXTURE_UNIT_LIMIT || p.value == d.integerv(MAX_COMBINED_TEXTURE_IMAGE_UNITS, 0))
  {
    var raw := d.integerv(MAX_COMBINED_TEXTURE_IMAGE_UNITS, 0);
    var units := if Contains(d.renderer, "Radeon") then Min(raw, RADEON_TEXTURE_UNIT_LIMIT) else raw;
    Probe(units, [GetIntegerv(MAX_COMBINED_TEXTURE_IMAGE_UNITS)])
  }

  function MaxTextureMaxAnisotropy(d: Driver, v: Version, exts: ExtensionsList): (p: Probe<Option<real>>)
    ensures p.value.Some? <==> GL_EXT_texture_filter_anisotropic in exts
    ensures p.value.Some? ==> p.value.value == d.floatv(MAX_TEXTURE_MAX_ANISOTROPY_EXT)
    ensures p.issued == (if p.value.Some? then [GetFloatv(MAX_TEXTURE_MAX_ANISOTROPY_EXT)] else [])
  {
    if Holds(ANISOTROPY_GATE, v, exts) then
      Probe(Some(d.floatv(MAX_TEXTURE_MAX_ANISOTROPY_EXT)), [GetFloatv(MAX_TEXTURE_MAX_ANISOTROPY_EXT)])
    else
      Probe(Option.None, [])
  }

  function MaxViewportDims(d: Driver): (p: Probe<(GLint, GLint)>)
    ensures p.value == (d.integerv(MAX_VIEWPORT_DIMS, 0), d.integerv(MAX_VIEWPORT_DIMS, 1))
    ensures p.issued == [GetIntegerv(MAX_VIEWPORT_DIMS)]
  {
    Probe((d.integerv(MAX_VIEWPORT_DIMS, 0), d.integerv(MAX_VIEWPORT_DIMS, 1)), [GetIntegerv(MAX_VIEWPORT_DIMS)])
  }

  function MaxIndexedTransformFeedbackBuffer(d: Driver, v: Version, exts: ExtensionsList): (p: Probe<GLint>)
    ensures FirstMatch(TRANSFORM_FEEDBACK_GATES, v, exts) == |TRANSFORM_FEEDBACK_GATES| ==> p == Probe(DEFAULT_BINDINGS, [])
    ensures |p.issued| <= 1
  {
    match FirstMatch(TRANSFORM_FEEDBACK_GATES, v, exts)
    case 0 => Probe(d.integerv(MAX_TRANSFORM_FEEDBACK_BUFFERS, 0), [GetIntegerv(MAX_TRANSFORM_FEEDBACK_BUFFERS)])
    case 1 =>
      Probe(d.integerv(MAX_TRANSFORM_FEEDBACK_SEPARATE_ATTRIBS_EXT, 0), [GetIntegerv(MAX_TRANSFORM_FEEDBACK_SEPARATE_ATTRIBS_EXT)])
    case _ => Probe(DEFAULT_BINDINGS, [])
  }

  function MaxComputeWorkGroupCount(d: Driver, v: Version, exts: ExtensionsList): (p: Probe<(GLint, GLint, GLint)>)
    ensures !Holds(COMPUTE_GATE, v, exts) ==> p == Probe(DEFAULT_COMPUTE_WORK_GROUP_COUNT, [])
    ensures Holds(COMPUTE_GATE, v, exts) ==>
              p.value == (d.integeri_v(MAX_COMPUTE_WORK_GROUP_COUNT, 0), d.integeri_v(MAX_COMPUTE_WORK_GROUP_COUNT, 1),
                          d.integeri_v(MAX_COMPUTE_WORK_GROUP_COUNT, 2))
    ensures Holds(COMPUTE_GATE, v, exts) ==>
              p.issued == [GetIntegeri_v(MAX_COMPUTE_WORK_GROUP_COUNT, 0),
                           GetIntegeri_v(MAX_COMPUTE_WORK_GROUP_COUNT, 1),
                           GetIntegeri_v(MAX_COMPUTE_WORK_GROUP_COUNT, 2)]
  {
    if Holds(COMPUTE_GATE, v, exts) then
      Probe((d.integeri_v(MAX_COMPUTE_WORK_GROUP_COUNT, 0),
             d.integeri_v(MAX_COMPUTE_WORK_GROUP_COUNT, 1),
             d.integeri_v(MAX_COMPUTE_WORK_GROUP_COUNT, 2)),
            [GetIntegeri_v(MAX_COMPUTE_WORK_GROUP_COUNT, 0),
             GetIntegeri_v(MAX_COMPUTE_WORK_GROUP_COUNT, 1),
             GetIntegeri_v(MAX_COMPUTE_WORK_GROUP_COUNT, 2)])
    else
      Probe(DEFAULT_COMPUTE_WORK_GROUP_COUNT, [])
  }

  // ---------------------------------------------------------------------------
  // The whole record

  /** No field resolver reads the renderer string: it is read once, up front. */
  lemma ResolversNeverAskRenderer(d: Driver, v: Version, exts: ExtensionsList)
    ensures GetString(RENDERER) !in SupportedGlsl(d, v, exts).issued
    ensures GetString(RENDERER) !in Robustness(d, v, exts).issued
    ensures GetString(RENDERER) !in CanLoseContext(d, v, exts).issued
    ensures GetString(RENDERER) !in ReleaseBehaviorOf(d, v, exts).issued
    ensures GetString(RENDERER) !in Srgb(d, v, exts).issued
    ensures GetString(RENDERER) !in AttachmentBits(d, v, exts, DepthAttachment).issued
    ensures GetString(RENDERER) !in AttachmentBits(d, v, exts, StencilAttachment).issued
    ensures GetString(RENDERER) !in Stereo(d, v, exts).issued
    ensures GetString(RENDERER) !in MaxCombinedTextureImageUnits(d).issued
    ensures GetString(RENDERER) !in MaxTextureMaxAnisotropy(d, v, exts).issued
    ensures GetString(RENDERER) !in MaxViewportDims(d).issued
    ensures GetString(RENDERER) !in MaxIndexedTransformFeedbackBuffer(d, v, exts).issued
    ensures GetString(RENDERER) !in MaxComputeWorkGroupCount(d, v, exts).issued
    ensures forall gate, pname, fallback :: GetString(RENDERER) !in LimitOr(d, v, exts, gate, pname, fallback).issued
    ensures forall gate, pname :: GetString(RENDERER) !in OptionalLimit(d, v, exts, gate, pname).issued
  {
  }

  /** Resolves every field in declaration order, after reading the renderer
      string once. Resolution stops at the first reset strategy or release
      behaviour that does not decode; the log then ends with the query that
      returned it. */
  function GetCapabilities(d: Driver, v: Version, exts: ExtensionsList): (p: Probe<Result<Capabilities>>)
    ensures p.issued != [] && p.issued[0] == GetString(RENDERER)
    ensures GetString(RENDERER) !in p.issued[1..]
    ensures p.value.Unreachable? <==>
              CanLoseContext(d, v, exts).value.Unreachable? || ReleaseBehaviorOf(d, v, exts).value.Unreachable?
  {
    var glsl := SupportedGlsl(d, v, exts);
    var robustness := Robustness(d, v, exts);
    var canLose := CanLoseContext(d, v, exts);
    ResolversNeverAskRenderer(d, v, exts);
    var head := glsl.issued + robustness.issued + canLose.issued;
    if canLose.value.Unreachable? then
      assert ([GetString(RENDERER)] + head)[1..] == head;
      Probe(Unreachable(canLose.value.fault), [GetString(RENDERER)] + head)
    else
      var release := ReleaseBehaviorOf(d, v, exts);
      if release.value.Unreachable? then
        assert ([GetString(RENDERER)] + (head + release.issued))[1..] == head + release.issued;
        Probe(Unreachable(release.value.fault), [GetString(RENDERER)] + (head + release.issued))
      else
        var stereo := Stereo(d, v, exts);
        var srgb := Srgb(d, v, exts);
        var depth := AttachmentBits(d, v, exts, DepthAttachment);
        var stencil := AttachmentBits(d, v, exts, StencilAttachment);
        var units := MaxCombinedTextureImageUnits(d);
        var anisotropy := MaxTextureMaxAnisotropy(d, v, exts);
        var textureBuffer := OptionalLimit(d, v, exts, TEXTURE_BUFFER_GATE, MAX_TEXTURE_BUFFER_SIZE);
        var viewport := MaxViewportDims(d);
        var drawBuffers := LimitOr(d, v, exts, DRAW_BUFFERS_GATE, MAX_DRAW_BUFFERS, DEFAULT_DRAW_BUFFERS);
        var patch := OptionalLimit(d, v, exts, PATCH_VERTICES_GATE, MAX_PATCH_VERTICES);
        var atomic := LimitOr(d, v, exts, ATOMIC_COUNTER_GATE, MAX_ATOMIC_COUNTER_BUFFER_BINDINGS, DEFAULT_BINDINGS);
        var storage := LimitOr(d, v, exts, SHADER_STORAGE_GATE, MAX_SHADER_STORAGE_BUFFER_BINDINGS, DEFAULT_BINDINGS);
        var feedback := MaxIndexedTransformFeedbackBuffer(d, v, exts);
        var uniform := LimitOr(d, v, exts, UNIFORM_BUFFER_GATE, MAX_UNIFORM_BUFFER_BINDINGS, DEFAULT_BINDINGS);
        var compute := MaxComputeWorkGroupCount(d, v, exts);
        var state := head + release.issued + stereo.issued + srgb.issued + depth.issued + stencil.issued;
        var textures := units.issued + anisotropy.issued + textureBuffer.issued + viewport.issued;
        var bindings := drawBuffers.issued + patch.issued + atomic.issued + storage.issued + feedback.issued
          + uniform.issued + compute.issued;
        assert GetString(RENDERER) !in state;
        assert GetString(RENDERER) !in textures;
        assert GetString(RENDERER) !in bindings;
        var fields := state + textures + bindings;
        assert ([GetString(RENDERER)] + fields)[1..] == fields;
        Probe(
          Ok(Capabilities(
            glsl.value, robustness.value, canLose.value.value, release.value.value, stereo.value, srgb.value,
            depth.value, stencil.value, units.value, anisotropy.value, textureBuffer.value, viewport.value,
            drawBuffers.value, patch.value, atomic.value, storage.value, feedback.value, uniform.value,
            compute.value)),
          [GetString(RENDERER)] + fields)
  }
}
