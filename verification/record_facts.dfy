/** What the resolution of the whole record promises: when it fails, where
    its query log stops, and how it resolves three representative contexts. */
module RecordFacts {
  import opened GlVersion
  import opened GlExtensions
  import opened Gates
  import opened GlDriver
  import opened Glsl
  import opened ContextCapabilities
  import opened GlslFacts
  import opened CapabilityFacts

  /** Resolution fails exactly when a reset strategy is asked and is none of
      the three known values, or a release behaviour is asked and is neither
      "none" nor "flush". */
  lemma ResolutionFailsIff(d: Driver, v: Version, exts: ExtensionsList)
    ensures var reset := AsGlEnum(d.integerv(RESET_NOTIFICATION_STRATEGY, 0));
            var release := AsGlEnum(d.integerv(CONTEXT_RELEASE_BEHAVIOR, 0));
            GetCapabilities(d, v, exts).value.Unreachable?
            <==>
            || ((v.AtLeast(OpenGl(4, 5)) || GL_KHR_robustness in exts || GL_ARB_robustness in exts || GL_EXT_robustness in exts)
                && reset !in {LOSE_CONTEXT_ON_RESET, NO_RESET_NOTIFICATION, AMD_RESET_STRATEGY_ALIAS})
            || (GL_KHR_context_flush_control in exts && release !in {NONE, CONTEXT_RELEASE_BEHAVIOR_FLUSH})
  {
    CanLoseContextDecoding(d, v, exts);
    ReleaseBehaviorDecoding(d, v, exts);
  }

  /** A failed resolution reports the first value that did not decode (the
      reset strategy before the release behaviour), and its log ends with the
      query that returned it: nothing after it is asked. */
  lemma FailureStopsAtFaultyQuery(d: Driver, v: Version, exts: ExtensionsList)
    ensures var p := GetCapabilities(d, v, exts);
            CanLoseContext(d, v, exts).value.Unreachable? ==>
              && p.value == Unreachable(UnknownResetNotificationStrategy(AsGlEnum(d.integerv(RESET_NOTIFICATION_STRATEGY, 0))))
              && p.issued[|p.issued| - 1] == GetIntegerv(RESET_NOTIFICATION_STRATEGY)
    ensures var p := GetCapabilities(d, v, exts);
            CanLoseContext(d, v, exts).value.Ok? && ReleaseBehaviorOf(d, v, exts).value.Unreachable? ==>
              && p.value == Unreachable(UnknownReleaseBehavior(AsGlEnum(d.integerv(CONTEXT_RELEASE_BEHAVIOR, 0))))
              && p.issued[|p.issued| - 1] == GetIntegerv(CONTEXT_RELEASE_BEHAVIOR)
  {
    CanLoseContextDecoding(d, v, exts);
    ReleaseBehaviorDecoding(d, v, exts);
  }

  /** When both decoded values decode, resolution succeeds and each field of
      the record is its resolver's value. */
  lemma ResolvedRecord(d: Driver, v: Version, exts: ExtensionsList)
    requires CanLoseContext(d, v, exts).value.Ok? && ReleaseBehaviorOf(d, v, exts).value.Ok?
    ensures GetCapabilities(d, v, exts).value
            == Ok(Capabilities(
                 SupportedGlsl(d, v, exts).value, Robustness(d, v, exts).value, CanLoseContext(d, v, exts).value.value,
                 ReleaseBehaviorOf(d, v, exts).value.value, Stereo(d, v, exts).value, Srgb(d, v, exts).value,
                 AttachmentBits(d, v, exts, DepthAttachment).value, AttachmentBits(d, v, exts, StencilAttachment).value,
                 MaxCombinedTextureImageUnits(d).value, MaxTextureMaxAnisotropy(d, v, exts).value,
                 OptionalLimit(d, v, exts, TEXTURE_BUFFER_GATE, MAX_TEXTURE_BUFFER_SIZE).value, MaxViewportDims(d).value,
                 LimitOr(d, v, exts, DRAW_BUFFERS_GATE, MAX_DRAW_BUFFERS, DEFAULT_DRAW_BUFFERS).value,
                 OptionalLimit(d, v, exts, PATCH_VERTICES_GATE, MAX_PATCH_VERTICES).value,
                 LimitOr(d, v, exts, ATOMIC_COUNTER_GATE, MAX_ATOMIC_COUNTER_BUFFER_BINDINGS, DEFAULT_BINDINGS).value,
                 LimitOr(d, v, exts, SHADER_STORAGE_GATE, MAX_SHADER_STORAGE_BUFFER_BINDINGS, DEFAULT_BINDINGS).value,
                 MaxIndexedTransformFeedbackBuffer(d, v, exts).value,
                 LimitOr(d, v, exts, UNIFORM_BUFFER_GATE, MAX_UNIFORM_BUFFER_BINDINGS, DEFAULT_BINDINGS).value,
                 MaxComputeWorkGroupCount(d, v, exts).value))
  {
  }

  /** When both decoded values decode, the log is the renderer query followed
      by the queries of every field resolver, in declaration order. */
  lemma ResolvedLog(d: Driver, v: Version, exts: ExtensionsList)
    requires CanLoseContext(d, v, exts).value.Ok? && ReleaseBehaviorOf(d, v, exts).value.Ok?
    ensures GetCapabilities(d, v, exts).issued
            == [GetString(RENDERER)]
               + (SupportedGlsl(d, v, exts).issued + Robustness(d, v, exts).issued + CanLoseContext(d, v, exts).issued
                  + ReleaseBehaviorOf(d, v, exts).issued + Stereo(d, v, exts).issued + Srgb(d, v, exts).issued
                  + AttachmentBits(d, v, exts, DepthAttachment).issued
                  + AttachmentBits(d, v, exts, StencilAttachment).issued
                  + (MaxCombinedTextureImageUnits(d).issued + MaxTextureMaxAnisotropy(d, v, exts).issued
                     + OptionalLimit(d, v, exts, TEXTURE_BUFFER_GATE, MAX_TEXTURE_BUFFER_SIZE).issued
                     + MaxViewportDims(d).issued)
                  + (LimitOr(d, v, exts, DRAW_BUFFERS_GATE, MAX_DRAW_BUFFERS, DEFAULT_DRAW_BUFFERS).issued
                     + OptionalLimit(d, v, exts, PATCH_VERTICES_GATE, MAX_PATCH_VERTICES).issued
                     + LimitOr(d, v, exts, ATOMIC_COUNTER_GATE, MAX_ATOMIC_COUNTER_BUFFER_BINDINGS, DEFAULT_BINDINGS).issued
                     + LimitOr(d, v, exts, SHADER_STORAGE_GATE, MAX_SHADER_STORAGE_BUFFER_BINDINGS, DEFAULT_BINDINGS).issued
                     + MaxIndexedTransformFeedbackBuffer(d, v, exts).issued
                     + LimitOr(d, v, exts, UNIFORM_BUFFER_GATE, MAX_UNIFORM_BUFFER_BINDINGS, DEFAULT_BINDINGS).issued
                     + MaxComputeWorkGroupCount(d, v, exts).issued))
  {
  }

  /** The context-state fields of an OpenGL 2.1 context without extensions ask
      for stereo and the legacy depth and stencil sizes, and nothing else. */
  lemma Gl21StateQueries(d: Driver)
    ensures var v, exts := OpenGl(2, 1), {};
            SupportedGlsl(d, v, exts).issued + Robustness(d, v, exts).issued + CanLoseContext(d, v, exts).issued
            + ReleaseBehaviorOf(d, v, exts).issued + Stereo(d, v, exts).issued + Srgb(d, v, exts).issued
            + AttachmentBits(d, v, exts, DepthAttachment).issued + AttachmentBits(d, v, exts, StencilAttachment).issued
            == [GetBooleanv(STEREO), GetIntegerv(DEPTH_BITS), GetIntegerv(STENCIL_BITS)]
  {
    var v: Version, exts: ExtensionsList := OpenGl(2, 1), {};
    assert Robustness(d, v, exts).issued == [] by {
      RobustnessFirstMatch(d, v, exts);
    }
    assert CanLoseContext(d, v, exts).issued == [] by {
      CanLoseContextDecoding(d, v, exts);
    }
    assert Srgb(d, v, exts).issued == [] by {
      SrgbFirstMatch(d, v, exts);
    }
    assert AttachmentBits(d, v, exts, DepthAttachment).issued == [GetIntegerv(DEPTH_BITS)] by {
      AttachmentBitsPaths(d, v, exts, DepthAttachment);
    }
    assert AttachmentBits(d, v, exts, StencilAttachment).issued == [GetIntegerv(STENCIL_BITS)] by {
      AttachmentBitsPaths(d, v, exts, StencilAttachment);
    }
  }

  /** The limits of an OpenGL 2.1 context without extensions ask for the
      texture units, the viewport and the draw buffers, and nothing else. */
  lemma Gl21LimitQueries(d: Driver)
    ensures var v, exts := OpenGl(2, 1), {};
            MaxCombinedTextureImageUnits(d).issued + MaxTextureMaxAnisotropy(d, v, exts).issued
            + OptionalLimit(d, v, exts, TEXTURE_BUFFER_GATE, MAX_TEXTURE_BUFFER_SIZE).issued + MaxViewportDims(d).issued
            == [GetIntegerv(MAX_COMBINED_TEXTURE_IMAGE_UNITS), GetIntegerv(MAX_VIEWPORT_DIMS)]
    ensures var v, exts := OpenGl(2, 1), {};
            LimitOr(d, v, exts, DRAW_BUFFERS_GATE, MAX_DRAW_BUFFERS, DEFAULT_DRAW_BUFFERS).issued
            + OptionalLimit(d, v, exts, PATCH_VERTICES_GATE, MAX_PATCH_VERTICES).issued
            + LimitOr(d, v, exts, ATOMIC_COUNTER_GATE, MAX_ATOMIC_COUNTER_BUFFER_BINDINGS, DEFAULT_BINDINGS).issued
            + LimitOr(d, v, exts, SHADER_STORAGE_GATE, MAX_SHADER_STORAGE_BUFFER_BINDINGS, DEFAULT_BINDINGS).issued
            + MaxIndexedTransformFeedbackBuffer(d, v, exts).issued
            + LimitOr(d, v, exts, UNIFORM_BUFFER_GATE, MAX_UNIFORM_BUFFER_BINDINGS, DEFAULT_BINDINGS).issued
            + MaxComputeWorkGroupCount(d, v, exts).issued
            == [GetIntegerv(MAX_DRAW_BUFFERS)]
  {
    var v: Version, exts: ExtensionsList := OpenGl(2, 1), {};
    LimitGatesMatchSource(v, exts);
    UngatedFieldsFallBack(d, v, exts);
    TransformFeedbackFirstMatch(d, v, exts);
  }

  /** The queries of an OpenGL 2.1 context without extensions: the renderer,
      then stereo, the legacy depth and stencil sizes, the texture units, the
      viewport and the draw buffers. No limit introduced after 2.1 is asked. */
  lemma Gl21ContextLog(d: Driver)
    ensures GetCapabilities(d, OpenGl(2, 1), {}).issued
            == [GetString(RENDERER)]
               + ([GetBooleanv(STEREO), GetIntegerv(DEPTH_BITS), GetIntegerv(STENCIL_BITS)]
                  + [GetIntegerv(MAX_COMBINED_TEXTURE_IMAGE_UNITS), GetIntegerv(MAX_VIEWPORT_DIMS)]
                  + [GetIntegerv(MAX_DRAW_BUFFERS)])
  {
    var v: Version, exts: ExtensionsList := OpenGl(2, 1), {};
    Gl21StateQueries(d);
    Gl21LimitQueries(d);
    CanLoseContextDecoding(d, v, exts);
    ResolvedLog(d, v, exts);
  }

  /** An OpenGL ES 3.1 context without a shader compiler or extensions
      resolves: no GLSL version, no robustness, a context that cannot be lost
      and flushes on release, and the desktop-only limits at their fallbacks;
      draw buffers and compute work groups are still asked. */
  lemma CompilerlessEs31Context(d: Driver)
    requires d.booleanv(SHADER_COMPILER) == 0
    ensures GetCapabilities(d, OpenGlEs(3, 1), {}).value.Ok?
    ensures var caps := GetCapabilities(d, OpenGlEs(3, 1), {}).value.value;
            && caps.supportedGlslVersions == []
            && !caps.robustness && !caps.canLoseContext && caps.releaseBehavior == Flush
            && !caps.stereo && !caps.srgb
            && caps.maxTextureBufferSize == Option.None && caps.maxPatchVertices == Option.None
            && caps.maxIndexedAtomicCounterBuffer == 0 && caps.maxIndexedShaderStorageBuffer == 0
            && caps.maxIndexedTransformFeedbackBuffer == 0 && caps.maxIndexedUniformBuffer == 0
            && caps.maxDrawBuffers == d.integerv(MAX_DRAW_BUFFERS, 0)
            && caps.maxComputeWorkGroupCount
               == (d.integeri_v(MAX_COMPUTE_WORK_GROUP_COUNT, 0), d.integeri_v(MAX_COMPUTE_WORK_GROUP_COUNT, 1),
                   d.integeri_v(MAX_COMPUTE_WORK_GROUP_COUNT, 2))
  {
    var v, exts := OpenGlEs(3, 1), {};
    RobustnessFirstMatch(d, v, exts);
    CanLoseContextDecoding(d, v, exts);
    ResolvedRecord(d, v, exts);
    SrgbFirstMatch(d, v, exts);
    TransformFeedbackFirstMatch(d, v, exts);
    UngatedFieldsFallBack(d, v, exts);
    LimitGatesMatchSource(v, exts);
  }

  /** A table none of whose gates holds admits nothing. */
  lemma {:induction false} NothingAdmitted(table: seq<GlslEntry>, v: Version, exts: ExtensionsList)
    requires forall i :: 0 <= i < |table| ==> !Holds(table[i].gate, v, exts)
    ensures Admitted(table, v, exts) == []
  {
    if table != [] {
      assert !Holds(table[0].gate, v, exts);
      NothingAdmitted(table[1..], v, exts);
    }
  }

  /** A context older than desktop OpenGL 3.3 admits no row of the desktop table. */
  lemma DesktopTableNeedsGl33(v: Version, exts: ExtensionsList)
    requires !v.AtLeast(OpenGl(3, 3))
    ensures Admitted(DESKTOP_GLSL_TABLE, v, exts) == []
  {
    var vs := Versions(DESKTOP_GLSL_TABLE);
    DesktopGlslChain();
    ChainIsStrictlyOrdered(vs);
    forall i | 0 <= i < |DESKTOP_GLSL_TABLE|
      ensures !Holds(DESKTOP_GLSL_TABLE[i].gate, v, exts)
    {
      assert DESKTOP_GLSL_TABLE[i] == DesktopEntry(DESKTOP_GLSL_RELEASES[i]);
      if i > 0 {
        assert Precedes(vs[0], vs[i]);
      }
    }
    NothingAdmitted(DESKTOP_GLSL_TABLE, v, exts);
  }

  /** OpenGL 2.1 without extensions supports exactly GLSL 1.10 and 1.20. */
  lemma Gl21SupportsGlsl110And120(d: Driver)
    ensures SupportedGlsl(d, OpenGl(2, 1), {}).value == [OpenGl(1, 1), OpenGl(1, 2)]
  {
    var v: Version, exts: ExtensionsList := OpenGl(2, 1), {};
    GlslEsGatesMatchSource(v, exts);
    LegacyGlGatesMatchSource(v, exts);
    assert Admitted(GLSL_ES_TABLE, v, exts) == [];
    assert Admitted(LEGACY_GL_GLSL_TABLE, v, exts) == [OpenGl(1, 1), OpenGl(1, 2)];
    DesktopTableNeedsGl33(v, exts);
    AdmittedAppend(GLSL_ES_TABLE, LEGACY_GL_GLSL_TABLE, v, exts);
    AdmittedAppend(GLSL_ES_TABLE + LEGACY_GL_GLSL_TABLE, DESKTOP_GLSL_TABLE, v, exts);
  }

  /** An OpenGL 2.1 context without extensions on a Radeon renderer whose
      driver reports 48 texture units: GLSL 1.10 and 1.20 are supported, the
      texture units are capped at 32, stereo is read, and attachment sizes come
      from the legacy integer state. */
  lemma LegacyRadeonContext(d: Driver)
    requires d.renderer == "AMD Radeon HD 6970"
    requires d.integerv(MAX_COMBINED_TEXTURE_IMAGE_UNITS, 0) == 48
    ensures GetCapabilities(d, OpenGl(2, 1), {}).value.Ok?
    ensures var caps := GetCapabilities(d, OpenGl(2, 1), {}).value.value;
            && caps.supportedGlslVersions == [OpenGl(1, 1), OpenGl(1, 2)]
            && caps.maxCombinedTextureImageUnits == 32
            && caps.depthBits == BitsOf(d.integerv(DEPTH_BITS, 0))
            && caps.stencilBits == BitsOf(d.integerv(STENCIL_BITS, 0))
            && caps.stereo == (d.booleanv(STEREO) != 0)
  {
    var v, exts := OpenGl(2, 1), {};
    Gl21SupportsGlsl110And120(d);
    assert OccursAt(d.renderer, "Radeon", 4);
    RadeonTextureUnitCap(d);
    CanLoseContextDecoding(d, v, exts);
    ResolvedRecord(d, v, exts);
    AttachmentBitsPaths(d, v, exts, DepthAttachment);
    AttachmentBitsPaths(d, v, exts, StencilAttachment);
  }

  /** On any OpenGL 2.1 context without extensions the draw buffers are read,
      and every limit introduced after 2.1 takes its fallback. */
  lemma Gl21ContextLimits(d: Driver)
    ensures GetCapabilities(d, OpenGl(2, 1), {}).value.Ok?
    ensures var caps := GetCapabilities(d, OpenGl(2, 1), {}).value.value;
            && caps.maxDrawBuffers == d.integerv(MAX_DRAW_BUFFERS, 0)
            && caps.maxTextureMaxAnisotropy == Option.None
            && caps.maxTextureBufferSize == Option.None && caps.maxPatchVertices == Option.None
            && caps.maxIndexedAtomicCounterBuffer == 0 && caps.maxIndexedShaderStorageBuffer == 0
            && caps.maxIndexedTransformFeedbackBuffer == 0 && caps.maxIndexedUniformBuffer == 0
            && caps.maxComputeWorkGroupCount == (0, 0, 0)
  {
    var v, exts := OpenGl(2, 1), {};
    CanLoseContextDecoding(d, v, exts);
    ResolvedRecord(d, v, exts);
    TransformFeedbackFirstMatch(d, v, exts);
    UngatedFieldsFallBack(d, v, exts);
    LimitGatesMatchSource(v, exts);
  }

  /** A table all of whose gates hold admits every version, in table order. */
  lemma {:induction false} EverythingAdmitted(table: seq<GlslEntry>, v: Version, exts: ExtensionsList)
    requires forall i :: 0 <= i < |table| ==> Holds(table[i].gate, v, exts)
    ensures Admitted(table, v, exts) == Versions(table)
  {
    if table != [] {
      assert Holds(table[0].gate, v, exts);
      EverythingAdmitted(table[1..], v, exts);
      assert Versions(table) == [table[0].version] + Versions(table[1..]);
    }
  }

  /** OpenGL 4.6 with every extension supports every GLSL version of the table. */
  lemma FullGl46SupportsEveryGlsl(d: Driver, exts: ExtensionsList)
    requires forall e: Extension :: e in exts
    ensures SupportedGlsl(d, Version(Gl, 4, 6), exts).value == Versions(GLSL_TABLE)
  {
    var v := Version(Gl, 4, 6);
    GlslEsGatesMatchSource(v, exts);
    LegacyGlGatesMatchSource(v, exts);
    assert forall i :: 0 <= i < |GLSL_ES_TABLE| ==> Holds(GLSL_ES_TABLE[i].gate, v, exts);
    assert forall i :: 0 <= i < |LEGACY_GL_GLSL_TABLE| ==> Holds(LEGACY_GL_GLSL_TABLE[i].gate, v, exts);
    forall i | 0 <= i < |DESKTOP_GLSL_TABLE|
      ensures Holds(DESKTOP_GLSL_TABLE[i].gate, v, exts)
    {
      assert DESKTOP_GLSL_TABLE[i] == DesktopEntry(DESKTOP_GLSL_RELEASES[i]);
    }
    EverythingAdmitted(GLSL_ES_TABLE, v, exts);
    EverythingAdmitted(LEGACY_GL_GLSL_TABLE, v, exts);
    EverythingAdmitted(DESKTOP_GLSL_TABLE, v, exts);
    AdmittedAppend(GLSL_ES_TABLE, LEGACY_GL_GLSL_TABLE, v, exts);
    AdmittedAppend(GLSL_ES_TABLE + LEGACY_GL_GLSL_TABLE, DESKTOP_GLSL_TABLE, v, exts);
    VersionsAppend(GLSL_ES_TABLE, LEGACY_GL_GLSL_TABLE);
    VersionsAppend(GLSL_ES_TABLE + LEGACY_GL_GLSL_TABLE, DESKTOP_GLSL_TABLE);
  }

  /** An OpenGL 4.6 context with every extension whose reset strategy and
      release behaviour decode: resolution succeeds, every GLSL version is
      supported, robustness comes from the context flags and sRGB from the
      extension's boolean. */
  lemma FullGl46ContextState(d: Driver, exts: ExtensionsList)
    requires forall e: Extension :: e in exts
    requires AsGlEnum(d.integerv(RESET_NOTIFICATION_STRATEGY, 0))
             in {LOSE_CONTEXT_ON_RESET, NO_RESET_NOTIFICATION, AMD_RESET_STRATEGY_ALIAS}
    requires AsGlEnum(d.integerv(CONTEXT_RELEASE_BEHAVIOR, 0)) in {NONE, CONTEXT_RELEASE_BEHAVIOR_FLUSH}
    ensures GetCapabilities(d, Version(Gl, 4, 6), exts).value.Ok?
    ensures var caps := GetCapabilities(d, Version(Gl, 4, 6), exts).value.value;
            && caps.supportedGlslVersions == Versions(GLSL_TABLE)
            && caps.robustness == HasFlag(d.integerv(CONTEXT_FLAGS, 0), CONTEXT_FLAG_ROBUST_ACCESS_BIT)
            && caps.canLoseContext == (AsGlEnum(d.integerv(RESET_NOTIFICATION_STRATEGY, 0)) == LOSE_CONTEXT_ON_RESET)
            && caps.srgb == (d.booleanv(FRAMEBUFFER_SRGB_CAPABLE_EXT) != 0)
  {
    var v := Version(Gl, 4, 6);
    FullGl46SupportsEveryGlsl(d, exts);
    RobustnessFirstMatch(d, v, exts);
    CanLoseContextDecoding(d, v, exts);
    ReleaseBehaviorDecoding(d, v, exts);
    ResolvedRecord(d, v, exts);
    SrgbFirstMatch(d, v, exts);
  }

  /** The limits of the same context, on a renderer whose name does not
      contain "Radeon": the texture units are not capped, every optional limit
      is present, and since GL_ARB_compatibility is present the attachment
      sizes come from the legacy integer state. */
  lemma FullGl46ContextLimits(d: Driver, exts: ExtensionsList)
    requires forall e: Extension :: e in exts
    requires forall i :: !OccursAt(d.renderer, "Radeon", i)
    requires AsGlEnum(d.integerv(RESET_NOTIFICATION_STRATEGY, 0))
             in {LOSE_CONTEXT_ON_RESET, NO_RESET_NOTIFICATION, AMD_RESET_STRATEGY_ALIAS}
    requires AsGlEnum(d.integerv(CONTEXT_RELEASE_BEHAVIOR, 0)) in {NONE, CONTEXT_RELEASE_BEHAVIOR_FLUSH}
    ensures GetCapabilities(d, Version(Gl, 4, 6), exts).value.Ok?
    ensures var caps := GetCapabilities(d, Version(Gl, 4, 6), exts).value.value;
            && caps.depthBits == BitsOf(d.integerv(DEPTH_BITS, 0))
            && caps.maxCombinedTextureImageUnits == d.integerv(MAX_COMBINED_TEXTURE_IMAGE_UNITS, 0)
            && caps.maxTextureMaxAnisotropy == Some(d.floatv(MAX_TEXTURE_MAX_ANISOTROPY_EXT))
            && caps.maxPatchVertices == Some(d.integerv(MAX_PATCH_VERTICES, 0))
            && caps.maxIndexedAtomicCounterBuffer == d.integerv(MAX_ATOMIC_COUNTER_BUFFER_BINDINGS, 0)
            && caps.maxIndexedTransformFeedbackBuffer == d.integerv(MAX_TRANSFORM_FEEDBACK_BUFFERS, 0)
  {
    var v := Version(Gl, 4, 6);
    RadeonTextureUnitCap(d);
    CanLoseContextDecoding(d, v, exts);
    ReleaseBehaviorDecoding(d, v, exts);
    ResolvedRecord(d, v, exts);
    AttachmentBitsPaths(d, v, exts, DepthAttachment);
    TransformFeedbackFirstMatch(d, v, exts);
    LimitGatesMatchSource(v, exts);
  }
}
