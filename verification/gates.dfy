/** The extensions the capability code consults, as a set of present extensions. */
module GlExtensions {

  /** One optional extension of OpenGL / OpenGL ES that gates a capability. */
  datatype Extension =
    | GL_ARB_robustness
    | GL_KHR_robustness
    | GL_EXT_robustness
    | GL_KHR_context_flush_control
    | GL_EXT_framebuffer_sRGB
    | GL_ARB_compatibility
    | GL_EXT_texture_filter_anisotropic
    | GL_ARB_texture_buffer_object
    | GL_EXT_texture_buffer_object
    | GL_OES_texture_buffer
    | GL_EXT_texture_buffer
    | GL_ATI_draw_buffers
    | GL_ARB_draw_buffers
    | GL_ARB_tessellation_shader
    | GL_ARB_shader_storage_buffer_object
    | GL_ARB_transform_feedback3
    | GL_EXT_transform_feedback
    | GL_ARB_uniform_buffer_object
    | GL_ARB_compute_shader
    | GL_ARB_ES2_compatibility
    | GL_ARB_ES3_compatibility
    | GL_ARB_ES3_1_compatibility
    | GL_ARB_ES3_2_compatibility

  /** The extensions the context reports; an extension's flag is true exactly when it is a member. */
  type ExtensionsList = set<Extension>
}

/** Gates: boolean conditions over the context version and its extensions that
    decide whether (and how) a capability is queried. */
module Gates {
  import opened GlVersion
  import opened GlExtensions

  datatype Gate =
    | Since(min: Version)            // version >= min
    | Until(max: Version)            // version <= max
    | Exactly(at: Version)           // version == at
    | Has(ext: Extension)            // the extension is present
    | Lacks(ext: Extension)          // the extension is absent
    | Both(left: Gate, right: Gate)
    | Either(left: Gate, right: Gate)

  /** Whether a gate holds for a context. An exact version is the one that is
      both a lower and an upper bound. */
  predicate Holds(g: Gate, v: Version, exts: ExtensionsList)
    ensures g.Exactly? ==> (Holds(g, v, exts) <==> v.AtLeast(g.at) && v.AtMost(g.at))
  {
    match g
    case Since(min) => v.AtLeast(min)
    case Until(max) => v.AtMost(max)
    case Exactly(at) => v == at
    case Has(e) => e in exts
    case Lacks(e) => e !in exts
    case Both(l, r) => Holds(l, v, exts) && Holds(r, v, exts)
    case Either(l, r) => Holds(l, v, exts) || Holds(r, v, exts)
  }

  /** A gate built only from lower version bounds and present extensions. */
  predicate Positive(g: Gate) {
    match g
    case Since(_) => true
    case Has(_) => true
    case Both(l, r) => Positive(l) && Positive(r)
    case Either(l, r) => Positive(l) && Positive(r)
    case _ => false
  }

  /** Every version the gate compares against belongs to the family `api`. */
  predicate OnlyNames(g: Gate, api: Api) {
    match g
    case Since(min) => min.api == api
    case Until(max) => max.api == api
    case Exactly(at) => at.api == api
    case Has(_) => true
    case Lacks(_) => true
    case Both(l, r) => OnlyNames(l, api) && OnlyNames(r, api)
    case Either(l, r) => OnlyNames(l, api) && OnlyNames(r, api)
  }

  /** A positive gate that holds for a context keeps holding when the version is
      raised within its family and extensions are added. */
  lemma {:induction false} PositiveGateMonotone(g: Gate, v1: Version, e1: ExtensionsList, v2: Version, e2: ExtensionsList)
    requires Positive(g) && v2.AtLeast(v1) && e1 <= e2
    requires Holds(g, v1, e1)
    ensures Holds(g, v2, e2)
  {
    match g
    case Since(min) =>
      SameApiTotalOrder(v2, v1, min);
    case Has(_) =>
    case Both(l, r) =>
      PositiveGateMonotone(l, v1, e1, v2, e2);
      PositiveGateMonotone(r, v1, e1, v2, e2);
    case Either(l, r) =>
      if Holds(l, v1, e1) {
        PositiveGateMonotone(l, v1, e1, v2, e2);
      } else {
        PositiveGateMonotone(r, v1, e1, v2, e2);
      }
  }

  /** A gate that names versions of one family only cannot tell apart two contexts
      of the other family: it is decided by the extensions alone. */
  lemma {:induction false} ForeignVersionsIndistinguishable(g: Gate, api: Api, v1: Version, v2: Version, exts: ExtensionsList)
    requires OnlyNames(g, api)
    requires v1.api != api && v2.api != api
    ensures Holds(g, v1, exts) == Holds(g, v2, exts)
  {
    match g
    case Since(_) =>
    case Until(_) =>
    case Exactly(_) =>
    case Has(_) =>
    case Lacks(_) =>
    case Both(l, r) =>
      ForeignVersionsIndistinguishable(l, api, v1, v2, exts);
      ForeignVersionsIndistinguishable(r, api, v1, v2, exts);
    case Either(l, r) =>
      ForeignVersionsIndistinguishable(l, api, v1, v2, exts);
      ForeignVersionsIndistinguishable(r, api, v1, v2, exts);
  }

  /** The position of the first gate of an ordered list that holds, or the
      length of the list when none does: alternatives are tried in order and
      the first match decides the query path. */
  function FirstMatch(gates: seq<Gate>, v: Version, exts: ExtensionsList): (k: nat)
    ensures k <= |gates|
    ensures k < |gates| ==> Holds(gates[k], v, exts)
    ensures forall j :: 0 <= j < k ==> !Holds(gates[j], v, exts)
  {
    if gates == [] then 0
    else if Holds(gates[0], v, exts) then 0
    else 1 + FirstMatch(gates[1..], v, exts)
  }
}
