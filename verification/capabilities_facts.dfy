/** What the resolved capabilities promise, stated in the terms of the
    conditions the resolution is written with. */
module CapabilityFacts {
  import opened GlVersion
  import opened GlExtensions
  import opened Gates
  import opened GlDriver
  import opened Glsl
  import opened ContextCapabilities

  /** The gates of the context-state fields, in the terms of versions and
      extensions they are written with. */
  lemma StateGatesMatchSource(v: Version, exts: ExtensionsList)
    ensures Holds(ROBUSTNESS_GATES[0], v, exts)
            <==> v.AtLeast(OpenGl(4, 5)) || v.AtLeast(OpenGlEs(3, 2)) || (v.AtLeast(OpenGl(3, 0)) && GL_ARB_robustness in exts)
    ensures Holds(ROBUSTNESS_GATES[1], v, exts) <==> GL_KHR_robustness in exts || GL_EXT_robustness in exts
    ensures Holds(CAN_LOSE_CONTEXT_GATE, v, exts)
            <==> v.AtLeast(OpenGl(4, 5)) || GL_KHR_robustness in exts || GL_ARB_robustness in exts || GL_EXT_robustness in exts
    ensures Holds(SRGB_GATES[0], v, exts) <==> v.AtLeast(OpenGl(3, 0)) && GL_EXT_framebuffer_sRGB !in exts
    ensures Holds(SRGB_GATES[1], v, exts) <==> GL_EXT_framebuffer_sRGB in exts
    ensures Holds(ATTACHMENT_QUERY_GATE, v, exts) <==> v.AtLeast(OpenGl(3, 0)) && GL_ARB_compatibility !in exts
  {
    assert Holds(ROBUSTNESS_GATES[0].right, v, exts)
       <==> v.AtLeast(OpenGlEs(3, 2)) || (v.AtLeast(OpenGl(3, 0)) && GL_ARB_robustness in exts) by {
      assert Holds(ROBUSTNESS_GATES[0].right.right, v, exts) <==> v.AtLeast(OpenGl(3, 0)) && GL_ARB_robustness in exts;
    }
    assert Holds(CAN_LOSE_CONTEXT_GATE.right, v, exts)
       <==> GL_KHR_robustness in exts || GL_ARB_robustness in exts || GL_EXT_robustness in exts by {
      assert Holds(CAN_LOSE_CONTEXT_GATE.right.right, v, exts) <==> GL_ARB_robustness in exts || GL_EXT_robustness in exts;
    }
  }

  /** The gates of the size limits, in the terms they are written with. */
  lemma LimitGatesMatchSource(v: Version, exts: ExtensionsList)
    ensures Holds(TEXTURE_BUFFER_GATE, v, exts)
            <==> v.AtLeast(OpenGl(3, 0)) || GL_ARB_texture_buffer_object in exts || GL_EXT_texture_buffer_object in exts
                 || GL_OES_texture_buffer in exts || GL_EXT_texture_buffer in exts
    ensures Holds(DRAW_BUFFERS_GATE, v, exts)
            <==> v.AtLeast(OpenGl(2, 0)) || v.AtLeast(OpenGlEs(3, 0)) || GL_ATI_draw_buffers in exts || GL_ARB_draw_buffers in exts
    ensures Holds(PATCH_VERTICES_GATE, v, exts) <==> v.AtLeast(OpenGl(4, 0)) || GL_ARB_tessellation_shader in exts
    ensures Holds(ATOMIC_COUNTER_GATE, v, exts) <==> v.AtLeast(OpenGl(4, 2))
    ensures Holds(SHADER_STORAGE_GATE, v, exts) <==> v.AtLeast(OpenGl(4, 3)) || GL_ARB_shader_storage_buffer_object in exts
    ensures Holds(UNIFORM_BUFFER_GATE, v, exts) <==> v.AtLeast(OpenGl(3, 1)) || GL_ARB_uniform_buffer_object in exts
    ensures Holds(COMPUTE_GATE, v, exts) <==> v.AtLeast(OpenGl(4, 3)) || v.AtLeast(OpenGlEs(3, 1)) || GL_ARB_compute_shader in exts
  {
    assert Holds(TEXTURE_BUFFER_GATE.right, v, exts)
       <==> GL_ARB_texture_buffer_object in exts || GL_EXT_texture_buffer_object in exts || GL_OES_texture_buffer in exts
            || GL_EXT_texture_buffer in exts by {
      assert Holds(TEXTURE_BUFFER_GATE.right.right, v, exts)
         <==> GL_EXT_texture_buffer_object in exts || GL_OES_texture_buffer in exts || GL_EXT_texture_buffer in exts by {
        assert Holds(TEXTURE_BUFFER_GATE.right.right.right, v, exts)
           <==> GL_OES_texture_buffer in exts || GL_EXT_texture_buffer in exts;
      }
    }
    assert Holds(DRAW_BUFFERS_GATE.right, v, exts)
       <==> v.AtLeast(OpenGlEs(3, 0)) || GL_ATI_draw_buffers in exts || GL_ARB_draw_buffers in exts by {
      assert Holds(DRAW_BUFFERS_GATE.right.right, v, exts) <==> GL_ATI_draw_buffers in exts || GL_ARB_draw_buffers in exts;
    }
    assert Holds(COMPUTE_GATE.right, v, exts) <==> v.AtLeast(OpenGlEs(3, 1)) || GL_ARB_compute_shader in exts;
  }

  /** Robustness takes the first path whose condition holds: the robust-access
      bit of the context flags on GL 4.5, ES 3.2, or GL 3.0 with
      GL_ARB_robustness; else the robust-access boolean with the KHR or EXT
      robustness extension; else it is false and nothing is asked. */
  lemma RobustnessFirstMatch(d: Driver, v: Version, exts: ExtensionsList)
    ensures v.AtLeast(OpenGl(4, 5)) || v.AtLeast(OpenGlEs(3, 2)) || (v.AtLeast(OpenGl(3, 0)) && GL_ARB_robustness in exts)
            ==> Robustness(d, v, exts)
                == Probe(HasFlag(d.integerv(CONTEXT_FLAGS, 0), CONTEXT_FLAG_ROBUST_ACCESS_BIT), [GetIntegerv(CONTEXT_FLAGS)])
    ensures !(v.AtLeast(OpenGl(4, 5)) || v.AtLeast(OpenGlEs(3, 2)) || (v.AtLeast(OpenGl(3, 0)) && GL_ARB_robustness in exts))
            && (GL_KHR_robustness in exts || GL_EXT_robustness in exts)
            ==> Robustness(d, v, exts)
                == Probe(d.booleanv(CONTEXT_ROBUST_ACCESS) != 0, [GetBooleanv(CONTEXT_ROBUST_ACCESS)])
    ensures !(v.AtLeast(OpenGl(4, 5)) || v.AtLeast(OpenGlEs(3, 2)) || (v.AtLeast(OpenGl(3, 0)) && GL_ARB_robustness in exts))
            && !(GL_KHR_robustness in exts || GL_EXT_robustness in exts)
            ==> Robustness(d, v, exts) == Probe(false, [])
  {
    StateGatesMatchSource(v, exts);
  }

  /** The context can be lost only on GL 4.5 or with a robustness extension;
      the reset strategy is then asked and decoded, the AMD alias meaning that
      it cannot be lost. */
  lemma CanLoseContextDecoding(d: Driver, v: Version, exts: ExtensionsList)
    ensures var gated := v.AtLeast(OpenGl(4, 5)) || GL_KHR_robustness in exts || GL_ARB_robustness in exts
                         || GL_EXT_robustness in exts;
            CanLoseContext(d, v, exts)
            == if gated then Probe(DecodeResetStrategy(d.integerv(RESET_NOTIFICATION_STRATEGY, 0)),
                                   [GetIntegerv(RESET_NOTIFICATION_STRATEGY)])
               else Probe(Ok(false), [])
    ensures AsGlEnum(d.integerv(RESET_NOTIFICATION_STRATEGY, 0)) == AMD_RESET_STRATEGY_ALIAS
            ==> CanLoseContext(d, v, exts).value == Ok(false)
  {
    StateGatesMatchSource(v, exts);
  }

  /** Release behaviour is asked only with GL_KHR_context_flush_control, and flushes otherwise. */
  lemma ReleaseBehaviorDecoding(d: Driver, v: Version, exts: ExtensionsList)
    ensures ReleaseBehaviorOf(d, v, exts)
            == if GL_KHR_context_flush_control in exts
               then Probe(DecodeReleaseBehavior(d.integerv(CONTEXT_RELEASE_BEHAVIOR, 0)), [GetIntegerv(CONTEXT_RELEASE_BEHAVIOR)])
               else Probe(Ok(Flush), [])
  {
  }

  /** sRGB: the colour encoding of the back-left buffer on GL 3.0 without
      GL_EXT_framebuffer_sRGB; the extension's boolean when it is present; else false. */
  lemma SrgbFirstMatch(d: Driver, v: Version, exts: ExtensionsList)
    ensures v.AtLeast(OpenGl(3, 0)) && GL_EXT_framebuffer_sRGB !in exts
            ==> Srgb(d, v, exts)
                == Probe(AsGlEnum(d.attachmentParameteriv(FRAMEBUFFER, BACK_LEFT, FRAMEBUFFER_ATTACHMENT_COLOR_ENCODING)) == SRGB,
                         [GetFramebufferAttachmentParameteriv(FRAMEBUFFER, BACK_LEFT, FRAMEBUFFER_ATTACHMENT_COLOR_ENCODING)])
    ensures GL_EXT_framebuffer_sRGB in exts
            ==> Srgb(d, v, exts) == Probe(d.booleanv(FRAMEBUFFER_SRGB_CAPABLE_EXT) != 0, [GetBooleanv(FRAMEBUFFER_SRGB_CAPABLE_EXT)])
    ensures !v.AtLeast(OpenGl(3, 0)) && GL_EXT_framebuffer_sRGB !in exts ==> Srgb(d, v, exts) == Probe(false, [])
  {
    StateGatesMatchSource(v, exts);
  }

  /** Transform-feedback bindings: the buffer count on GL 4.0 or with
      GL_ARB_transform_feedback3; else the separate-attribute count on GL 3.0 or
      with GL_EXT_transform_feedback; else 0. */
  lemma TransformFeedbackFirstMatch(d: Driver, v: Version, exts: ExtensionsList)
    ensures v.AtLeast(OpenGl(4, 0)) || GL_ARB_transform_feedback3 in exts
            ==> MaxIndexedTransformFeedbackBuffer(d, v, exts)
                == Probe(d.integerv(MAX_TRANSFORM_FEEDBACK_BUFFERS, 0), [GetIntegerv(MAX_TRANSFORM_FEEDBACK_BUFFERS)])
    ensures !(v.AtLeast(OpenGl(4, 0)) || GL_ARB_transform_feedback3 in exts)
            && (v.AtLeast(OpenGl(3, 0)) || GL_EXT_transform_feedback in exts)
            ==> MaxIndexedTransformFeedbackBuffer(d, v, exts)
                == Probe(d.integerv(MAX_TRANSFORM_FEEDBACK_SEPARATE_ATTRIBS_EXT, 0),
                         [GetIntegerv(MAX_TRANSFORM_FEEDBACK_SEPARATE_ATTRIBS_EXT)])
    ensures !(v.AtLeast(OpenGl(4, 0)) || GL_ARB_transform_feedback3 in exts)
            && !(v.AtLeast(OpenGl(3, 0)) || GL_EXT_transform_feedback in exts)
            ==> MaxIndexedTransformFeedbackBuffer(d, v, exts) == Probe(0, [])
  {
    assert Holds(TRANSFORM_FEEDBACK_GATES[0], v, exts) <==> v.AtLeast(OpenGl(4, 0)) || GL_ARB_transform_feedback3 in exts;
    assert Holds(TRANSFORM_FEEDBACK_GATES[1], v, exts) <==> v.AtLeast(OpenGl(3, 0)) || GL_EXT_transform_feedback in exts;
  }

  /** Under the attachment gate an attachment whose object type is NONE has no
      bits, and its size is never asked: the type query is the only one. */
  lemma AttachmentTypeNoneSkipsSizeQuery(d: Driver, v: Version, exts: ExtensionsList, a: Attachment)
    requires v.AtLeast(OpenGl(3, 0)) && GL_ARB_compatibility !in exts
    requires AsGlEnum(d.attachmentParameteriv(FRAMEBUFFER, a.Token(), FRAMEBUFFER_ATTACHMENT_OBJECT_TYPE)) == NONE
    ensures AttachmentBits(d, v, exts, a)
            == Probe(Option.None, [GetFramebufferAttachmentParameteriv(FRAMEBUFFER, a.Token(), FRAMEBUFFER_ATTACHMENT_OBJECT_TYPE)])
  {
    StateGatesMatchSource(v, exts);
  }

  /** The other two paths of an attachment's bit count: its size after its
      type, or the legacy integer state outside the attachment gate. */
  lemma AttachmentBitsPaths(d: Driver, v: Version, exts: ExtensionsList, a: Attachment)
    ensures v.AtLeast(OpenGl(3, 0)) && GL_ARB_compatibility !in exts
            && AsGlEnum(d.attachmentParameteriv(FRAMEBUFFER, a.Token(), FRAMEBUFFER_ATTACHMENT_OBJECT_TYPE)) != NONE
            ==> AttachmentBits(d, v, exts, a)
                == Probe(BitsOf(d.attachmentParameteriv(FRAMEBUFFER, a.Token(), a.SizeParameter())),
                         [GetFramebufferAttachmentParameteriv(FRAMEBUFFER, a.Token(), FRAMEBUFFER_ATTACHMENT_OBJECT_TYPE),
                          GetFramebufferAttachmentParameteriv(FRAMEBUFFER, a.Token(), a.SizeParameter())])
    ensures !(v.AtLeast(OpenGl(3, 0)) && GL_ARB_compatibility !in exts)
            ==> AttachmentBits(d, v, exts, a) == Probe(BitsOf(d.integerv(a.BitsState(), 0)), [GetIntegerv(a.BitsState())])
  {
    StateGatesMatchSource(v, exts);
  }

  /** When their conditions fail, the limits take their fixed fallbacks without
      asking the driver. */
  lemma UngatedFieldsFallBack(d: Driver, v: Version, exts: ExtensionsList)
    ensures !(v.AtLeast(OpenGl(2, 0)) || v.AtLeast(OpenGlEs(3, 0)) || GL_ATI_draw_buffers in exts || GL_ARB_draw_buffers in exts)
            ==> LimitOr(d, v, exts, DRAW_BUFFERS_GATE, MAX_DRAW_BUFFERS, DEFAULT_DRAW_BUFFERS) == Probe(1, [])
    ensures !(v.AtLeast(OpenGl(4, 0)) || GL_ARB_tessellation_shader in exts)
            ==> OptionalLimit(d, v, exts, PATCH_VERTICES_GATE, MAX_PATCH_VERTICES) == Probe(Option.None, [])
    ensures !v.AtLeast(OpenGl(4, 2))
            ==> LimitOr(d, v, exts, ATOMIC_COUNTER_GATE, MAX_ATOMIC_COUNTER_BUFFER_BINDINGS, DEFAULT_BINDINGS) == Probe(0, [])
    ensures !(v.AtLeast(OpenGl(4, 3)) || GL_ARB_shader_storage_buffer_object in exts)
            ==> LimitOr(d, v, exts, SHADER_STORAGE_GATE, MAX_SHADER_STORAGE_BUFFER_BINDINGS, DEFAULT_BINDINGS) == Probe(0, [])
    ensures !(v.AtLeast(OpenGl(3, 1)) || GL_ARB_uniform_buffer_object in exts)
            ==> LimitOr(d, v, exts, UNIFORM_BUFFER_GATE, MAX_UNIFORM_BUFFER_BINDINGS, DEFAULT_BINDINGS) == Probe(0, [])
    ensures !(v.AtLeast(OpenGl(4, 3)) || v.AtLeast(OpenGlEs(3, 1)) || GL_ARB_compute_shader in exts)
            ==> MaxComputeWorkGroupCount(d, v, exts) == Probe((0, 0, 0), [])
    ensures !(v.AtLeast(OpenGl(3, 0)) || GL_ARB_texture_buffer_object in exts || GL_EXT_texture_buffer_object in exts
              || GL_OES_texture_buffer in exts || GL_EXT_texture_buffer in exts)
            ==> OptionalLimit(d, v, exts, TEXTURE_BUFFER_GATE, MAX_TEXTURE_BUFFER_SIZE) == Probe(Option.None, [])
  {
    LimitGatesMatchSource(v, exts);
  }

  /** The texture-unit count is capped at 32 exactly when "Radeon" occurs
      somewhere in the renderer string. */
  lemma RadeonTextureUnitCap(d: Driver)
    ensures var raw := d.integerv(MAX_COMBINED_TEXTURE_IMAGE_UNITS, 0);
            MaxCombinedTextureImageUnits(d).value
            == if (exists i :: OccursAt(d.renderer, "Radeon", i)) && raw > RADEON_TEXTURE_UNIT_LIMIT
               then RADEON_TEXTURE_UNIT_LIMIT else raw
  {
    ContainsIffOccurs(d.renderer, "Radeon");
  }

  /** Fields whose gates name desktop versions only are decided, for an
      OpenGL ES context, by the extensions alone: two ES versions resolve them
      alike. Stereo and atomic-counter bindings are never asked on ES. */
  lemma EsVersionIrrelevantToDesktopLimits(d: Driver, v1: Version, v2: Version, exts: ExtensionsList)
    requires v1.api == GlEs && v2.api == GlEs
    ensures Stereo(d, v1, exts) == Probe(false, [])
    ensures LimitOr(d, v1, exts, ATOMIC_COUNTER_GATE, MAX_ATOMIC_COUNTER_BUFFER_BINDINGS, DEFAULT_BINDINGS) == Probe(0, [])
    ensures OptionalLimit(d, v1, exts, TEXTURE_BUFFER_GATE, MAX_TEXTURE_BUFFER_SIZE)
            == OptionalLimit(d, v2, exts, TEXTURE_BUFFER_GATE, MAX_TEXTURE_BUFFER_SIZE)
    ensures OptionalLimit(d, v1, exts, PATCH_VERTICES_GATE, MAX_PATCH_VERTICES)
            == OptionalLimit(d, v2, exts, PATCH_VERTICES_GATE, MAX_PATCH_VERTICES)
    ensures LimitOr(d, v1, exts, SHADER_STORAGE_GATE, MAX_SHADER_STORAGE_BUFFER_BINDINGS, DEFAULT_BINDINGS)
            == LimitOr(d, v2, exts, SHADER_STORAGE_GATE, MAX_SHADER_STORAGE_BUFFER_BINDINGS, DEFAULT_BINDINGS)
    ensures LimitOr(d, v1, exts, UNIFORM_BUFFER_GATE, MAX_UNIFORM_BUFFER_BINDINGS, DEFAULT_BINDINGS)
            == LimitOr(d, v2, exts, UNIFORM_BUFFER_GATE, MAX_UNIFORM_BUFFER_BINDINGS, DEFAULT_BINDINGS)
  {
    ForeignVersionsIndistinguishable(TEXTURE_BUFFER_GATE, Gl, v1, v2, exts);
    ForeignVersionsIndistinguishable(PATCH_VERTICES_GATE, Gl, v1, v2, exts);
    ForeignVersionsIndistinguishable(SHADER_STORAGE_GATE, Gl, v1, v2, exts);
    ForeignVersionsIndistinguishable(UNIFORM_BUFFER_GATE, Gl, v1, v2, exts);
  }

  /** Likewise for the transform-feedback count and the attachment sizes. */
  lemma EsVersionIrrelevantToDesktopPaths(d: Driver, v1: Version, v2: Version, exts: ExtensionsList)
    requires v1.api == GlEs && v2.api == GlEs
    ensures MaxIndexedTransformFeedbackBuffer(d, v1, exts) == MaxIndexedTransformFeedbackBuffer(d, v2, exts)
    ensures AttachmentBits(d, v1, exts, DepthAttachment) == AttachmentBits(d, v2, exts, DepthAttachment)
    ensures AttachmentBits(d, v1, exts, StencilAttachment) == AttachmentBits(d, v2, exts, StencilAttachment)
  {
    ForeignVersionsIndistinguishable(TRANSFORM_FEEDBACK_GATES[0], Gl, v1, v2, exts);
    ForeignVersionsIndistinguishable(TRANSFORM_FEEDBACK_GATES[1], Gl, v1, v2, exts);
    ForeignVersionsIndistinguishable(ATTACHMENT_QUERY_GATE, Gl, v1, v2, exts);
  }

  /** Raising the version within its family or adding extensions never stops
      a context-state query from being issued. */
  lemma StateQueriesPersist(d: Driver, v1: Version, e1: ExtensionsList, v2: Version, e2: ExtensionsList)
    requires v2.AtLeast(v1) && e1 <= e2
    ensures Robustness(d, v1, e1).issued != [] ==> Robustness(d, v2, e2).issued != []
    ensures CanLoseContext(d, v1, e1).issued != [] ==> CanLoseContext(d, v2, e2).issued != []
    ensures ReleaseBehaviorOf(d, v1, e1).issued != [] ==> ReleaseBehaviorOf(d, v2, e2).issued != []
    ensures Srgb(d, v1, e1).issued != [] ==> Srgb(d, v2, e2).issued != []
  {
    if Holds(ROBUSTNESS_GATES[0], v1, e1) {
      PositiveGateMonotone(ROBUSTNESS_GATES[0], v1, e1, v2, e2);
    }
    if Holds(ROBUSTNESS_GATES[1], v1, e1) {
      PositiveGateMonotone(ROBUSTNESS_GATES[1], v1, e1, v2, e2);
    }
    if Holds(CAN_LOSE_CONTEXT_GATE, v1, e1) {
      PositiveGateMonotone(CAN_LOSE_CONTEXT_GATE, v1, e1, v2, e2);
    }
    if v1.AtLeast(OpenGl(3, 0)) {
      SameApiTotalOrder(v2, v1, OpenGl(3, 0));
    }
  }

  /** A limit behind a gate of minimum versions and present extensions stays
      available, and its query issued, in a newer context with more extensions. */
  lemma GatedLimitPersists(d: Driver, gate: Gate, pname: GLenum, fallback: GLint,
                           v1: Version, e1: ExtensionsList, v2: Version, e2: ExtensionsList)
    requires Positive(gate) && v2.AtLeast(v1) && e1 <= e2
    ensures OptionalLimit(d, v1, e1, gate, pname).value.Some? ==> OptionalLimit(d, v2, e2, gate, pname).value.Some?
    ensures LimitOr(d, v1, e1, gate, pname, fallback).issued != [] ==> LimitOr(d, v2, e2, gate, pname, fallback).issued != []
  {
    if Holds(gate, v1, e1) {
      PositiveGateMonotone(gate, v1, e1, v2, e2);
    }
  }

  /** The limits with more than one query path stay queried too. */
  lemma MultiPathLimitsPersist(d: Driver, v1: Version, e1: ExtensionsList, v2: Version, e2: ExtensionsList)
    requires v2.AtLeast(v1) && e1 <= e2
    ensures MaxTextureMaxAnisotropy(d, v1, e1).value.Some? ==> MaxTextureMaxAnisotropy(d, v2, e2).value.Some?
    ensures MaxIndexedTransformFeedbackBuffer(d, v1, e1).issued != [] ==> MaxIndexedTransformFeedbackBuffer(d, v2, e2).issued != []
    ensures MaxComputeWorkGroupCount(d, v1, e1).issued != [] ==> MaxComputeWorkGroupCount(d, v2, e2).issued != []
  {
    if Holds(TRANSFORM_FEEDBACK_GATES[0], v1, e1) {
      PositiveGateMonotone(TRANSFORM_FEEDBACK_GATES[0], v1, e1, v2, e2);
    }
    if Holds(TRANSFORM_FEEDBACK_GATES[1], v1, e1) {
      PositiveGateMonotone(TRANSFORM_FEEDBACK_GATES[1], v1, e1, v2, e2);
    }
    if Holds(COMPUTE_GATE, v1, e1) {
      PositiveGateMonotone(COMPUTE_GATE, v1, e1, v2, e2);
    }
  }
}
