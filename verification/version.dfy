/** Context versions of OpenGL and OpenGL ES, and the order the capability code relies on. */
module GlVersion {

  /** The API family of a context: desktop OpenGL or OpenGL ES. */
  datatype Api = Gl | GlEs

  /** A context (or shading-language) version: API family, major and minor number. */
  datatype Version = Version(api: Api, major: nat, minor: nat)
  {
    /** `this >= other`. Versions of different API families are unordered, so the
        comparison is false whenever the families differ; otherwise it is
        lexicographic on (major, minor). */
    predicate AtLeast(other: Version) {
      api == other.api && (major > other.major || (major == other.major && minor >= other.minor))
    }

    /** `this <= other`, with the same convention. */
    predicate AtMost(other: Version) {
      api == other.api && (major < other.major || (major == other.major && minor <= other.minor))
    }
  }

  function OpenGl(major: nat, minor: nat): Version { Version(Gl, major, minor) }

  function OpenGlEs(major: nat, minor: nat): Version { Version(GlEs, major, minor) }

  /** A comparison across API families never holds, in either direction. */
  lemma CrossApiNeverOrdered(v: Version, w: Version)
    requires v.api != w.api
    ensures !v.AtLeast(w) && !v.AtMost(w) && !w.AtLeast(v) && !w.AtMost(v)
  {
  }

  /** Within one family the order is total, antisymmetric and transitive, and
      `<=` is the converse of `>=`. */
  lemma SameApiTotalOrder(u: Version, v: Version, w: Version)
    ensures v.AtLeast(w) <==> w.AtMost(v)
    ensures v.api == w.api ==> v.AtLeast(w) || w.AtLeast(v)
    ensures v.AtLeast(w) && w.AtLeast(v) ==> v == w
    ensures u.AtLeast(v) && v.AtLeast(w) ==> u.AtLeast(w)
  {
  }
}
