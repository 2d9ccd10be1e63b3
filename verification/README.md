# glium context capabilities, modelled in Dafny

When glium creates an OpenGL or OpenGL ES context, it resolves a
`Capabilities` record once. The record holds the GLSL versions the compiler
accepts, the robustness and context-loss guarantees, the release behaviour, the
default framebuffer's sRGB, depth and stencil formats, and about a dozen
implementation limits. Each field is read from the context with a state query
(`glGetIntegerv`, `glGetBooleanv`, `glGetFloatv`, `glGetIntegeri_v` or
`glGetFramebufferAttachmentParameteriv`). Most fields have a condition over the
context version and the extensions the context reports: when it holds the
field is read, and when it fails the field takes a fixed fallback without
asking the driver. The texture-unit count and the viewport bounds have no
condition and are always read. The renderer string is read once, before any
field.

This project models that resolution (`get_capabilities`), the GLSL version
list (`get_supported_glsl`), the `Capabilities` record and the
`ReleaseBehavior` enum.

- `GlVersion` (version.dfy) holds the context version. Versions of different
  API families (desktop GL and GL ES) never compare.
- `GlExtensions` and `Gates` (gates.dfy) hold the extensions and a small
  language of conditions (`Gate`).
- `GlDriver` (driver.dfy) holds the context, modelled as an oracle: a datatype
  of functions giving the answer to every query. Every resolver returns a
  `Probe`: the value together with the queries it issued, in order.
- `Glsl` (glsl.dfy) holds the GLSL table and `GetSupportedGlsl`. That method
  mirrors the source's guarded pushes and its loop, and is proved equal to the
  table filter `SupportedGlsl`.
- `ContextCapabilities` (capabilities.dfy) holds the record, one resolver per
  field, and `GetCapabilities`.
- `GlslFacts`, `CapabilityFacts` and `RecordFacts` hold the properties.

A reset strategy or release behaviour that matches no documented token is
unreachable in the source, which aborts. The model returns
`Unreachable(fault)` instead, and resolution stops there.

The enum constant `ReleaseBehavior::None` is written `ReleaseBehavior.None` in
the model. The qualification keeps it apart from `Option.None`.

## Model

| member | source | states |
|---|---|---|
| GlVersion.CrossApiNeverOrdered | src/context/capabilities.rs:424-425 | a GL ES version and a desktop version are never `>=` or `<=` each other, so a condition naming the other family fails |
| GlVersion.SameApiTotalOrder | src/context/capabilities.rs:446 | within one family `<=` is the converse of `>=`, and the order is total, antisymmetric and transitive |
| Gates.PositiveGateMonotone | src/context/capabilities.rs:112-113 | a condition built only from minimum versions and present extensions keeps holding when the version is raised within its family and extensions are added |
| Gates.ForeignVersionsIndistinguishable | src/context/capabilities.rs:354 | a condition naming only desktop versions gives the same answer for any two versions of the other family, so it is decided by the extensions alone |
| Gates.FirstMatch | src/context/capabilities.rs:112-129 | an if / else-if chain takes the first alternative whose condition holds: that one holds and every earlier one fails; past the end none holds |
| Gates.Holds | src/context/capabilities.rs:112-113 | evaluates a condition as the source's boolean formulas do; an exact version (`version == &Version(..)`) holds exactly when the version is both a lower and an upper bound |
| GlDriver.AsGlEnum | src/context/capabilities.rs:119 | `as GLenum` keeps the value modulo 2^32 and leaves non-negative values unchanged |
| GlDriver.RobustAccessFlag | src/context/capabilities.rs:117-120 | the robust-access test `(flags as GLenum) & GL_CONTEXT_FLAG_ROBUST_ACCESS_BIT != 0` (`HasFlag` on bit 2) holds exactly when the signed flags leave a remainder of 4 to 7 modulo 8, negative flags included |
| Glsl.DesktopEntries | src/context/capabilities.rs:470-474 | the desktop rows are one per release of the loop's list, in order, each gated by "version >= that release" |
| Glsl.Versions | src/context/capabilities.rs:422-476 | the versions of the table's rows, position by position |
| Glsl.Admitted | src/context/capabilities.rs:422-476 | the table filter the guarded pushes compute: never longer than the table, and it starts with the first row's version when that row's condition holds; AdmittedMembership and AdmittedIsSubsequence characterise it fully |
| Glsl.Compilerless | src/context/capabilities.rs:409-415 | the "no compiler" early return applies to GL ES contexts only: a context it applies to is never a desktop GL version |
| Glsl.SupportedGlsl | src/context/capabilities.rs:404-416 | an ES context whose `GL_SHADER_COMPILER` is false supports no GLSL version; exactly one query (`GL_SHADER_COMPILER`) is issued for ES and none for desktop GL |
| Glsl.AdmittedAppend | src/context/capabilities.rs:422-476 | proof helper, no source counterpart: filtering a concatenation of tables is concatenating their filtered lists, so the pushes may be split into blocks |
| Glsl.AdmittedPrefixStep | src/context/capabilities.rs:424-428 | one guarded push extends the filtered prefix by the row's version exactly when its condition holds |
| Glsl.GlslEsGatesMatchSource | src/context/capabilities.rs:424-444 | each GLSL ES row's gate holds exactly when the source's condition for pushing GLSL ES 1.00, 3.00, 3.10 or 3.20 holds |
| Glsl.LegacyGlGatesMatchSource | src/context/capabilities.rs:446-468 | each row for GLSL 1.10 to 1.50 holds exactly when the source's condition holds, including the `<= 3.0` upper bounds and the exact 3.0 case |
| Glsl.PushGlslEs | src/context/capabilities.rs:424-444 | the four guarded ES pushes produce the filter of the ES rows |
| Glsl.PushLegacyGlGlsl | src/context/capabilities.rs:446-468 | the five guarded pushes of GLSL 1.10 to 1.50 produce the filter of those rows |
| Glsl.PushDesktopGlsl | src/context/capabilities.rs:470-474 | the loop over the desktop releases pushes, in order, exactly the releases the context is at least: the filter of the desktop rows |
| Glsl.GetSupportedGlsl | src/context/capabilities.rs:404-477 | the compiler probe, the guarded pushes and the release loop together return exactly `SupportedGlsl`: the list and the queries issued |
| GlslFacts.PrecedesTransitive | src/context/capabilities.rs:422-476 | proof helper, no source counterpart: the table order (ES before desktop, then by version) is transitive |
| GlslFacts.ChainIsStrictlyOrdered | src/context/capabilities.rs:422-476 | proof helper, no source counterpart: a list whose neighbours are in table order is in table order pairwise |
| GlslFacts.VersionsAppend | src/context/capabilities.rs:422-476 | proof helper, no source counterpart: the versions of a concatenation of tables are the concatenation of their versions |
| GlslFacts.ChainAppend | src/context/capabilities.rs:422-476 | proof helper, no source counterpart: two ordered blocks, the last of the first before the head of the second, join into an ordered block |
| GlslFacts.EsGlslChain | src/context/capabilities.rs:424-444 | the ES rows are GLSL ES 1.00, 3.00, 3.10, 3.20, ascending |
| GlslFacts.LegacyGlGlslChain | src/context/capabilities.rs:446-468 | the next rows are GLSL 1.10 to 1.50, ascending |
| GlslFacts.DesktopGlslChain | src/context/capabilities.rs:470 | the loop's rows ascend from 3.30 |
| GlslFacts.GlslTableStrictlyOrdered | src/context/capabilities.rs:422-476 | the whole table lists each version once, ES first, ascending |
| GlslFacts.AdmittedIsSubsequence | src/context/capabilities.rs:422-476 | the pushes keep the table's order: the result is a subsequence of the table's versions |
| GlslFacts.EmptyIsSubsequence | src/context/capabilities.rs:413 | proof helper, no source counterpart: the empty list returned without a compiler is a subsequence of the table |
| GlslFacts.SubsequenceKeepsOrder | src/context/capabilities.rs:422-476 | proof helper, no source counterpart: a subsequence of an ordered list is ordered, and its members are members of the list |
| GlslFacts.SupportedGlslInTableOrder | src/context/capabilities.rs:404-477 | the supported list is ordered (ES first, ascending) and has no duplicates, for every context |
| GlslFacts.AdmittedFromTable | src/context/capabilities.rs:422-476 | every listed version is a version of the table |
| GlslFacts.AdmittedMembership | src/context/capabilities.rs:422-476 | in a table without repeats, a row's version is listed exactly when its condition holds |
| GlslFacts.SupportedGlslMembership | src/context/capabilities.rs:404-477 | a version of the table is listed exactly when the context has a compiler and that version's condition holds |
| GlslFacts.DesktopGlslIffAtLeast | src/context/capabilities.rs:470-474 | GLSL 3.30 to 4.50 are each listed exactly when the context is desktop GL of at least that version |
| GlslFacts.GlslGatesPositiveExceptLegacy | src/context/capabilities.rs:424-474 | every condition except those of GLSL 1.10, 1.20 and 1.30 uses only minimum versions and present extensions |
| GlslFacts.SupportedGlslMonotone | src/context/capabilities.rs:404-477 | a newer context of the same family with more extensions and a compiler still lists every version listed before, except GLSL 1.10 to 1.30 |
| GlslFacts.LegacyGlslNotMonotone | src/context/capabilities.rs:458 | the exception is real: GL 3.0 lists GLSL 1.30 and GL 3.1 without extensions does not |
| GlslFacts.DesktopContextListsBothFamilies | src/context/capabilities.rs:436-440 | a GL 4.5 context lists GLSL ES 3.10 and GLSL 4.50 |
| ContextCapabilities.DecodeResetStrategy | src/context/capabilities.rs:137-147 | the strategy decodes exactly for LOSE_CONTEXT_ON_RESET, NO_RESET_NOTIFICATION and the AMD value 0x31BE; it is `true` exactly for LOSE_CONTEXT_ON_RESET; any other value is a fault carrying that value |
| ContextCapabilities.DecodeReleaseBehavior | src/context/capabilities.rs:157-161 | the behaviour decodes exactly for NONE and CONTEXT_RELEASE_BEHAVIOR_FLUSH and is `Flush` exactly for the latter; any other value is a fault |
| ContextCapabilities.DecodersInvertTokens | src/context/capabilities.rs:137-161 | decoding the documented token of a strategy or behaviour gives it back |
| ContextCapabilities.BitsOf | src/context/capabilities.rs:224-227 | a bit count of 0 means no buffer; any other is kept modulo 2^16, as `as u16` does, and is unchanged when it is already in range |
| ContextCapabilities.Contains | src/context/capabilities.rs:269 | the renderer search: it fails on a string shorter than the pattern and succeeds when the string starts with it |
| ContextCapabilities.ContainsIffOccurs | src/context/capabilities.rs:269 | the renderer search finds "Radeon" exactly when it occurs at some position of the renderer string |
| ContextCapabilities.Min | src/context/capabilities.rs:270 | `cmp::min`: at most both arguments and equal to one of them |
| ContextCapabilities.LimitOr | src/context/capabilities.rs:309-320 | a limit is read with one `glGetIntegerv` when its condition holds, else it is the fallback and nothing is asked |
| ContextCapabilities.OptionalLimit | src/context/capabilities.rs:322-333 | a limit is present exactly when its condition holds; it is then the driver's value, read with one query, and nothing is asked otherwise |
| ContextCapabilities.Robustness | src/context/capabilities.rs:112-129 | robustness can be true only when one of the two conditions holds, and exactly one query is issued when one does |
| ContextCapabilities.CanLoseContext | src/context/capabilities.rs:131-151 | the context can be lost only when its condition holds and the strategy is LOSE_CONTEXT_ON_RESET; otherwise it is `false` without a query |
| ContextCapabilities.ReleaseBehaviorOf | src/context/capabilities.rs:153-165 | the behaviour is `None` only with GL_KHR_context_flush_control and a NONE answer; without the extension it is `Flush` without a query |
| ContextCapabilities.Stereo | src/context/capabilities.rs:167-175 | stereo is `GL_STEREO != 0` on desktop GL 1.0 or later, where `GL_STEREO` is asked; on GL ES it is false without a query |
| ContextCapabilities.Srgb | src/context/capabilities.rs:177-195 | sRGB is true only on GL 3.0 or with GL_EXT_framebuffer_sRGB, and exactly one query is issued exactly then |
| ContextCapabilities.RawAttachmentBits | src/context/capabilities.rs:197-222 | reading a depth or stencil size issues one or two queries; a second one is always the attachment's size |
| ContextCapabilities.AttachmentBits | src/context/capabilities.rs:197-261 | the depth or stencil bits are absent exactly when the value read is 0, with the same queries |
| ContextCapabilities.MaxCombinedTextureImageUnits | src/context/capabilities.rs:263-274 | one query; on a renderer containing "Radeon" the result is at most 32 and at most the driver's value, and is one of the two; otherwise it is the driver's value |
| ContextCapabilities.MaxTextureMaxAnisotropy | src/context/capabilities.rs:276-285 | the anisotropy limit is present exactly when GL_EXT_texture_filter_anisotropic is; it is then the driver's float, read with one `glGetFloatv`, and nothing is asked otherwise |
| ContextCapabilities.MaxViewportDims | src/context/capabilities.rs:303-307 | the viewport bounds are the two values written by the single `MAX_VIEWPORT_DIMS` query, in order |
| ContextCapabilities.MaxIndexedTransformFeedbackBuffer | src/context/capabilities.rs:353-365 | at most one query is issued; when neither condition holds the count is 0 without a query |
| ContextCapabilities.MaxComputeWorkGroupCount | src/context/capabilities.rs:377-391 | when the condition holds, the counts are the driver's answers for indices 0, 1 and 2, asked in that order; otherwise they are (0, 0, 0) without a query |
| ContextCapabilities.ResolversNeverAskRenderer | src/context/capabilities.rs:100-105 | no field resolver asks for the renderer string |
| ContextCapabilities.GetCapabilities | src/context/capabilities.rs:96-392 | the renderer string is asked first and never again; resolution fails exactly when the reset strategy or the release behaviour fails to decode |
| CapabilityFacts.StateGatesMatchSource | src/context/capabilities.rs:112-206 | the conditions of robustness, context loss, sRGB and the attachment path each hold exactly when the source's boolean formula does |
| CapabilityFacts.LimitGatesMatchSource | src/context/capabilities.rs:287-379 | the conditions of the texture-buffer, draw-buffer, patch, atomic-counter, storage, uniform and compute limits each hold exactly when the source's formula does |
| CapabilityFacts.RobustnessFirstMatch | src/context/capabilities.rs:112-129 | robustness is the CONTEXT_FLAGS robust-access bit on GL 4.5, ES 3.2 or GL 3.0 with GL_ARB_robustness; else the CONTEXT_ROBUST_ACCESS boolean with KHR or EXT robustness; else false with no query |
| CapabilityFacts.CanLoseContextDecoding | src/context/capabilities.rs:131-151 | with GL 4.5 or a robustness extension the strategy is asked and decoded, else false with no query; the AMD value means the context cannot be lost |
| CapabilityFacts.ReleaseBehaviorDecoding | src/context/capabilities.rs:153-165 | with GL_KHR_context_flush_control the behaviour is asked and decoded, else it is `Flush` with no query |
| CapabilityFacts.SrgbFirstMatch | src/context/capabilities.rs:177-195 | the back buffer's colour encoding is compared with SRGB on GL 3.0 without the extension; with the extension its boolean is used; else false with no query |
| CapabilityFacts.TransformFeedbackFirstMatch | src/context/capabilities.rs:353-365 | the count is MAX_TRANSFORM_FEEDBACK_BUFFERS on GL 4.0 or with ARB_transform_feedback3; else MAX_TRANSFORM_FEEDBACK_SEPARATE_ATTRIBS on GL 3.0 or with EXT_transform_feedback; else 0 |
| CapabilityFacts.AttachmentTypeNoneSkipsSizeQuery | src/context/capabilities.rs:206-213 | when the attachment's object type is NONE, the bits are absent and the type query is the only query: the size is never asked |
| CapabilityFacts.AttachmentBitsPaths | src/context/capabilities.rs:206-222 | with an attached object the size follows the type query; outside GL 3.0 core (or with GL_ARB_compatibility) the legacy DEPTH_BITS / STENCIL_BITS state is read instead |
| CapabilityFacts.UngatedFieldsFallBack | src/context/capabilities.rs:287-391 | without their conditions, the draw buffers are 1, the patch and texture-buffer limits are absent, the atomic, storage and uniform bindings are 0 and the work groups (0, 0, 0), all without a query |
| CapabilityFacts.RadeonTextureUnitCap | src/context/capabilities.rs:263-274 | the texture units are capped at 32 exactly when "Radeon" occurs somewhere in the renderer string and the driver reports more |
| CapabilityFacts.EsVersionIrrelevantToDesktopLimits | src/context/capabilities.rs:322-375 | on GL ES, stereo is false and the atomic bindings 0 with no query, and the texture-buffer, patch, storage and uniform limits depend on the extensions only |
| CapabilityFacts.EsVersionIrrelevantToDesktopPaths | src/context/capabilities.rs:197-261 | on GL ES the transform-feedback count and both attachment sizes are the same for any two ES versions |
| CapabilityFacts.StateQueriesPersist | src/context/capabilities.rs:112-195 | a newer context of the same family with more extensions still asks robustness, the reset strategy, the release behaviour and sRGB whenever the older one did |
| CapabilityFacts.GatedLimitPersists | src/context/capabilities.rs:287-375 | for a condition of minimum versions and present extensions, a limit available in one context stays available, and stays asked, in a newer one with more extensions |
| CapabilityFacts.MultiPathLimitsPersist | src/context/capabilities.rs:276-391 | the anisotropy limit, the transform-feedback count and the compute work groups stay available under the same change |
| RecordFacts.ResolutionFailsIff | src/context/capabilities.rs:131-165 | resolution fails exactly when a reset strategy is asked and is none of the three known values, or a release behaviour is asked and is neither NONE nor FLUSH |
| RecordFacts.FailureStopsAtFaultyQuery | src/context/capabilities.rs:146-160 | the first failing value is reported, the reset strategy before the release behaviour, and the query log ends with the query that returned it |
| RecordFacts.ResolvedRecord | src/context/capabilities.rs:107-392 | when both values decode, resolution succeeds and each field is its resolver's value |
| RecordFacts.ResolvedLog | src/context/capabilities.rs:96-392 | when both values decode, the log is the renderer query followed by every field's queries in declaration order |
| RecordFacts.CompilerlessEs31Context | src/context/capabilities.rs:335-375 | an ES 3.1 context without compiler or extensions resolves with no GLSL version, no robustness, no context loss, `Flush`, the desktop-only limits at their fallbacks, and the draw-buffer and compute limits read |
| RecordFacts.NothingAdmitted | src/context/capabilities.rs:422-476 | proof helper, no source counterpart: a table whose conditions all fail yields no version |
| RecordFacts.DesktopTableNeedsGl33 | src/context/capabilities.rs:470-474 | a context older than GL 3.3 gets no version from the release loop |
| RecordFacts.Gl21SupportsGlsl110And120 | src/context/capabilities.rs:446-456 | GL 2.1 without extensions supports exactly GLSL 1.10 and 1.20 |
| RecordFacts.LegacyRadeonContext | src/context/capabilities.rs:263-274 | a GL 2.1 Radeon context reporting 48 texture units resolves to 32 units, GLSL 1.10 and 1.20, stereo from `GL_STEREO`, and depth and stencil from the legacy state |
| RecordFacts.Gl21ContextLimits | src/context/capabilities.rs:276-391 | any GL 2.1 context without extensions reads its draw buffers, and every limit introduced after 2.1 (anisotropy, texture buffer, patch, atomic, storage, transform feedback, uniform, compute) takes its fallback |
| RecordFacts.Gl21StateQueries | src/context/capabilities.rs:107-261 | on that context the state fields ask only for stereo and the legacy depth and stencil sizes |
| RecordFacts.Gl21LimitQueries | src/context/capabilities.rs:263-391 | on that context the limits ask only for the texture units, the viewport and the draw buffers |
| RecordFacts.Gl21ContextLog | src/context/capabilities.rs:96-392 | the whole log of that context: the renderer, stereo, depth and stencil bits, texture units, viewport, draw buffers; nothing introduced after 2.1 is asked |
| RecordFacts.EverythingAdmitted | src/context/capabilities.rs:422-476 | proof helper, no source counterpart: a table whose conditions all hold yields all its versions in order |
| RecordFacts.FullGl46SupportsEveryGlsl | src/context/capabilities.rs:404-477 | GL 4.6 with every extension supports every version of the table, in order |
| RecordFacts.FullGl46ContextState | src/context/capabilities.rs:112-195 | that context resolves, with robustness from the context flags, context loss from the strategy and sRGB from the extension's boolean |
| RecordFacts.FullGl46ContextLimits | src/context/capabilities.rs:197-365 | its limits are read: texture units uncapped on a non-Radeon renderer, anisotropy and patch present, atomic and transform-feedback counts from the driver, and depth from legacy state because GL_ARB_compatibility is present |

## Left out

- The FFI calls are left out: the function pointers, the `unsafe` blocks and the requirement that the context be current on the calling thread. The driver is an oracle that answers every query with a defined value. Queries that fail, raise GL errors, or leave their output untouched are not modelled. So the `2` written into the texture-unit count before its query never shows.
- The renderer string is left out as an operation: the null-pointer assertion and the UTF-8 conversion with its panic. The model receives the renderer as a string.
- The `float` anisotropy value is modelled as an opaque `real` taken from the driver.
- The empty GL 4.3 branch of `get_supported_glsl` (the FIXME) does nothing and is not modelled.
- The `Version` type and the `ExtensionsList` struct are not part of this model. Their order and membership are restated in `GlVersion` and `GlExtensions`. The `u8` bounds on major and minor numbers are not kept.
- Glsl.GetSupportedGlsl: the source grows one vector. The model builds the ES pushes, the GL 1.x pushes and the release loop as three partial lists and concatenates them. The resulting list is the same.
- ContextCapabilities.Robustness: its own contract states only when a query is issued. The full choice of path is stated by CapabilityFacts.RobustnessFirstMatch.
- ContextCapabilities.CanLoseContext: its own contract covers the `true` case and the case without the condition. The decoding path is stated by CapabilityFacts.CanLoseContextDecoding.
- ContextCapabilities.ReleaseBehaviorOf: its own contract covers `None` and the case without the extension. The decoding path is stated by CapabilityFacts.ReleaseBehaviorDecoding.
- ContextCapabilities.Srgb: its own contract states when sRGB can be true and when a query is issued. Each path is stated by CapabilityFacts.SrgbFirstMatch.
- ContextCapabilities.RawAttachmentBits: its own contract bounds the queries only. Each path is stated by CapabilityFacts.AttachmentTypeNoneSkipsSizeQuery and CapabilityFacts.AttachmentBitsPaths.
- ContextCapabilities.MaxIndexedTransformFeedbackBuffer: its own contract covers the fallback only. Both query paths are stated by CapabilityFacts.TransformFeedbackFirstMatch.
- ContextCapabilities.GetCapabilities: its own contract states the failure condition and that the renderer is asked first and only once. The fields of a successful record are stated by RecordFacts.ResolvedRecord, its whole log by RecordFacts.ResolvedLog, and the end of the log on failure by RecordFacts.FailureStopsAtFaultyQuery.
