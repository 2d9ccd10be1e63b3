/** The list of shading-language versions a context can compile. */
module Glsl {
  import opened GlVersion
  import opened GlExtensions
  import opened Gates
  import opened GlDriver

  /** One row of the probing table: a shading-language version and the gate that admits it. */
  datatype GlslEntry = GlslEntry(version: Version, gate: Gate)

  /** GLSL ES 1.00 to 3.20, each admitted by an ES context of the matching
      release, a desktop context of a release that absorbed it, or an
      ES-compatibility extension. */
  const GLSL_ES_TABLE: seq<GlslEntry> := [
    GlslEntry(OpenGlEs(1, 0), Either(Since(OpenGlEs(2, 0)), Either(Since(OpenGl(4, 1)), Has(GL_ARB_ES2_compatibility)))),
    GlslEntry(OpenGlEs(3, 0), Either(Since(OpenGlEs(3, 0)), Either(Since(OpenGl(4, 3)), Has(GL_ARB_ES3_compatibility)))),
    GlslEntry(OpenGlEs(3, 1), Either(Since(OpenGlEs(3, 1)), Either(Since(OpenGl(4, 5)), Has(GL_ARB_ES3_1_compatibility)))),
    GlslEntry(OpenGlEs(3, 2), Either(Since(OpenGlEs(3, 2)), Has(GL_ARB_ES3_2_compatibility)))
  ]

  /** Desktop GLSL 1.10 to 1.50. The first three are dropped by core contexts
      after 3.0 unless the compatibility extension is present. */
  const LEGACY_GL_GLSL_TABLE: seq<GlslEntry> := [
    GlslEntry(OpenGl(1, 1), Either(Both(Since(OpenGl(2, 0)), Until(OpenGl(3, 0))), Has(GL_ARB_compatibility))),
    GlslEntry(OpenGl(1, 2), Either(Both(Since(OpenGl(2, 1)), Until(OpenGl(3, 0))), Has(GL_ARB_compatibility))),
    GlslEntry(OpenGl(1, 3), Either(Exactly(OpenGl(3, 0)), Has(GL_ARB_compatibility))),
    GlslEntry(OpenGl(1, 4), Since(OpenGl(3, 1))),
    GlslEntry(OpenGl(1, 5), Since(OpenGl(3, 2)))
  ]

  /** The desktop releases whose shading language a context of at least that release compiles. */
  const DESKTOP_GLSL_RELEASES: seq<(nat, nat)> := [(3, 3), (4, 0), (4, 1), (4, 2), (4, 3), (4, 4), (4, 5)]

  function DesktopEntry(release: (nat, nat)): GlslEntry {
    GlslEntry(OpenGl(release.0, release.1), Since(OpenGl(release.0, release.1)))
  }

  function DesktopEntries(releases: seq<(nat, nat)>): (table: seq<GlslEntry>)
    ensures |table| == |releases|
    ensures forall i :: 0 <= i < |releases| ==> table[i] == DesktopEntry(releases[i])
  {
    if releases == [] then [] else [DesktopEntry(releases[0])] + DesktopEntries(releases[1..])
  }

  const DESKTOP_GLSL_TABLE: seq<GlslEntry> := DesktopEntries(DESKTOP_GLSL_RELEASES)

  /** The whole table, in output order. */
  const GLSL_TABLE: seq<GlslEntry> := GLSL_ES_TABLE + LEGACY_GL_GLSL_TABLE + DESKTOP_GLSL_TABLE

  function Versions(table: seq<GlslEntry>): (vs: seq<Version>)
    ensures |vs| == |table|
    ensures forall i :: 0 <= i < |table| ==> vs[i] == table[i].version
  {
    if table == [] then [] else [table[0].version] + Versions(table[1..])
  }

  /** The versions of the rows whose gate holds, in table order. */
  function Admitted(table: seq<GlslEntry>, v: Version, exts: ExtensionsList): (vs: seq<Version>)
    ensures |vs| <= |table|
    ensures table != [] && Holds(table[0].gate, v, exts) ==> vs != [] && vs[0] == table[0].version
  {
    if table == [] then []
    else (if Holds(table[0].gate, v, exts) then [table[0].version] else []) + Admitted(table[1..], v, exts)
  }

  /** An OpenGL ES context may lack a shader compiler; it then compiles no shading language. */
  predicate Compilerless(d: Driver, v: Version)
    ensures Compilerless(d, v) ==> forall w: Version :: w.api == Gl ==> !v.AtLeast(w) && !v.AtMost(w)
  {
    v.api == GlEs && d.booleanv(SHADER_COMPILER) == 0
  }

  /** The shading-language versions of a context: none when an OpenGL ES context
      reports that it has no shader compiler, else the admitted rows of the table.
      On OpenGL ES the compiler probe is the one query issued. */
  function SupportedGlsl(d: Driver, v: Version, exts: ExtensionsList): (p: Probe<seq<Version>>)
    ensures Compilerless(d, v) ==> p.value == []
    ensures p.issued == (if v.api == GlEs then [GetBooleanv(SHADER_COMPILER)] else [])
  {
    if Compilerless(d, v) then
      Probe([], [GetBooleanv(SHADER_COMPILER)])
    else
      Probe(Admitted(GLSL_TABLE, v, exts), if v.api == GlEs then [GetBooleanv(SHADER_COMPILER)] else [])
  }

  // ---------------------------------------------------------------------------
  // Building the list as the source does

  lemma {:induction false} AdmittedAppend(a: seq<GlslEntry>, b: seq<GlslEntry>, v: Version, exts: ExtensionsList)
    ensures Admitted(a + b, v, exts) == Admitted(a, v, exts) + Admitted(b, v, exts)
  {
    if a == [] {
      assert a + b == b;
    } else {
      assert (a + b)[1..] == a[1..] + b;
      AdmittedAppend(a[1..], b, v, exts);
    }
  }

  /** Admitting one more row of a table appends that row's version exactly when its gate holds. */
  lemma AdmittedPrefixStep(table: seq<GlslEntry>, k: nat, v: Version, exts: ExtensionsList)
    requires k < |table|
    ensures Admitted(table[..k + 1], v, exts)
         == if Holds(table[k].gate, v, exts) then Admitted(table[..k], v, exts) + [table[k].version]
            else Admitted(table[..k], v, exts)
  {
    assert table[..k + 1] == table[..k] + [table[k]];
    AdmittedAppend(table[..k], [table[k]], v, exts);
  }

  /** The gates of the ES rows are the conditions the source writes out. */
  lemma GlslEsGatesMatchSource(v: Version, exts: ExtensionsList)
    ensures Holds(GLSL_ES_TABLE[0].gate, v, exts)
        <==> v.AtLeast(OpenGlEs(2, 0)) || v.AtLeast(OpenGl(4, 1)) || GL_ARB_ES2_compatibility in exts
    ensures Holds(GLSL_ES_TABLE[1].gate, v, exts)
        <==> v.AtLeast(OpenGlEs(3, 0)) || v.AtLeast(OpenGl(4, 3)) || GL_ARB_ES3_compatibility in exts
    ensures Holds(GLSL_ES_TABLE[2].gate, v, exts)
        <==> v.AtLeast(OpenGlEs(3, 1)) || v.AtLeast(OpenGl(4, 5)) || GL_ARB_ES3_1_compatibility in exts
    ensures Holds(GLSL_ES_TABLE[3].gate, v, exts)
        <==> v.AtLeast(OpenGlEs(3, 2)) || GL_ARB_ES3_2_compatibility in exts
  {
    assert Holds(GLSL_ES_TABLE[0].gate.right, v, exts) <==> v.AtLeast(OpenGl(4, 1)) || GL_ARB_ES2_compatibility in exts;
    assert Holds(GLSL_ES_TABLE[1].gate.right, v, exts) <==> v.AtLeast(OpenGl(4, 3)) || GL_ARB_ES3_compatibility in exts;
    assert Holds(GLSL_ES_TABLE[2].gate.right, v, exts) <==> v.AtLeast(OpenGl(4, 5)) || GL_ARB_ES3_1_compatibility in exts;
  }

  /** The gates of the legacy desktop rows are the conditions the source writes out. */
  lemma LegacyGlGatesMatchSource(v: Version, exts: ExtensionsList)
    ensures Holds(LEGACY_GL_GLSL_TABLE[0].gate, v, exts)
        <==> (v.AtLeast(OpenGl(2, 0)) && v.AtMost(OpenGl(3, 0))) || GL_ARB_compatibility in exts
    ensures Holds(LEGACY_GL_GLSL_TABLE[1].gate, v, exts)
        <==> (v.AtLeast(OpenGl(2, 1)) && v.AtMost(OpenGl(3, 0))) || GL_ARB_compatibility in exts
    ensures Holds(LEGACY_GL_GLSL_TABLE[2].gate, v, exts) <==> v == OpenGl(3, 0) || GL_ARB_compatibility in exts
    ensures Holds(LEGACY_GL_GLSL_TABLE[3].gate, v, exts) <==> v.AtLeast(OpenGl(3, 1))
    ensures Holds(LEGACY_GL_GLSL_TABLE[4].gate, v, exts) <==> v.AtLeast(OpenGl(3, 2))
  {
    assert Holds(LEGACY_GL_GLSL_TABLE[0].gate.left, v, exts) <==> v.AtLeast(OpenGl(2, 0)) && v.AtMost(OpenGl(3, 0));
    assert Holds(LEGACY_GL_GLSL_TABLE[1].gate.left, v, exts) <==> v.AtLeast(OpenGl(2, 1)) && v.AtMost(OpenGl(3, 0));
  }

  /** The four guarded pushes of GLSL ES versions. */
  method PushGlslEs(v: Version, exts: ExtensionsList) returns (versions: seq<Version>)
    ensures versions == Admitted(GLSL_ES_TABLE, v, exts)
  {
    ghost var t := GLSL_ES_TABLE;
    versions := [];
    assert t[..0] == [];
    if v.AtLeast(OpenGlEs(2, 0)) || v.AtLeast(OpenGl(4, 1)) || GL_ARB_ES2_compatibility in exts {
      versions := versions + [OpenGlEs(1, 0)];
    }
    assert versions == Admitted(t[..1], v, exts) by {
      AdmittedPrefixStep(t, 0, v, exts);
      GlslEsGatesMatchSource(v, exts);
    }
    if v.AtLeast(OpenGlEs(3, 0)) || v.AtLeast(OpenGl(4, 3)) || GL_ARB_ES3_compatibility in exts {
      versions := versions + [OpenGlEs(3, 0)];
    }
    assert versions == Admitted(t[..2], v, exts) by {
      AdmittedPrefixStep(t, 1, v, exts);
      GlslEsGatesMatchSource(v, exts);
    }
    if v.AtLeast(OpenGlEs(3, 1)) || v.AtLeast(OpenGl(4, 5)) || GL_ARB_ES3_1_compatibility in exts {
      versions := versions + [OpenGlEs(3, 1)];
    }
    assert versions == Admitted(t[..3], v, exts) by {
      AdmittedPrefixStep(t, 2, v, exts);
      GlslEsGatesMatchSource(v, exts);
    }
    if v.AtLeast(OpenGlEs(3, 2)) || GL_ARB_ES3_2_compatibility in exts {
      versions := versions + [OpenGlEs(3, 2)];
    }
    AdmittedPrefixStep(t, 3, v, exts);
    GlslEsGatesMatchSource(v, exts);
    assert t[..|t|] == t;
  }

  /** The five guarded pushes of desktop GLSL 1.10 to 1.50. */
  method PushLegacyGlGlsl(v: Version, exts: ExtensionsList) returns (versions: seq<Version>)
    ensures versions == Admitted(LEGACY_GL_GLSL_TABLE, v, exts)
  {
    ghost var t := LEGACY_GL_GLSL_TABLE;
    versions := [];
    assert t[..0] == [];
    if (v.AtLeast(OpenGl(2, 0)) && v.AtMost(OpenGl(3, 0))) || GL_ARB_compatibility in exts {
      versions := versions + [OpenGl(1, 1)];
    }
    assert versions == Admitted(t[..1], v, exts) by {
      AdmittedPrefixStep(t, 0, v, exts);
      LegacyGlGatesMatchSource(v, exts);
    }
    if (v.AtLeast(OpenGl(2, 1)) && v.AtMost(OpenGl(3, 0))) || GL_ARB_compatibility in exts {
      versions := versions + [OpenGl(1, 2)];
    }
    assert versions == Admitted(t[..2], v, exts) by {
      AdmittedPrefixStep(t, 1, v, exts);
      LegacyGlGatesMatchSource(v, exts);
    }
    if v == OpenGl(3, 0) || GL_ARB_compatibility in exts {
      versions := versions + [OpenGl(1, 3)];
    }
    assert versions == Admitted(t[..3], v, exts) by {
      AdmittedPrefixStep(t, 2, v, exts);
      LegacyGlGatesMatchSource(v, exts);
    }
    if v.AtLeast(OpenGl(3, 1)) {
      versions := versions + [OpenGl(1, 4)];
    }
    assert versions == Admitted(t[..4], v, exts) by {
      AdmittedPrefixStep(t, 3, v, exts);
      LegacyGlGatesMatchSource(v, exts);
    }
    if v.AtLeast(OpenGl(3, 2)) {
      versions := versions + [OpenGl(1, 5)];
    }
    AdmittedPrefixStep(t, 4, v, exts);
    LegacyGlGatesMatchSource(v, exts);
    assert t[..|t|] == t;
  }

  /** The loop over the desktop releases: each release no newer than the
      context is pushed, in order. */
  method PushDesktopGlsl(v: Version, exts: ExtensionsList) returns (versions: seq<Version>)
    ensures versions == Admitted(DESKTOP_GLSL_TABLE, v, exts)
  {
    versions := [];
    var desktop := DESKTOP_GLSL_TABLE;
    assert desktop[..0] == [];
    for i := 0 to |DESKTOP_GLSL_RELEASES|
      invariant versions == Admitted(desktop[..i], v, exts)
    {
      var (major, minor) := DESKTOP_GLSL_RELEASES[i];
      if v.AtLeast(OpenGl(major, minor)) {
        versions := versions + [OpenGl(major, minor)];
      }
      assert desktop[i] == DesktopEntry((major, minor));
      AdmittedPrefixStep(desktop, i, v, exts);
    }
    assert desktop[..|desktop|] == desktop;
  }

  /** Builds the list as the source does: the compiler probe, the guarded
      pushes, then the loop over the desktop releases. */
  method GetSupportedGlsl(d: Driver, v: Version, exts: ExtensionsList) returns (versions: seq<Version>, issued: seq<Query>)
    ensures Probe(versions, issued) == SupportedGlsl(d, v, exts)
  {
    issued := [];
    if v.api == GlEs {
      issued := [GetBooleanv(SHADER_COMPILER)];
      if d.booleanv(SHADER_COMPILER) == 0 {
        return [], issued;
      }
    }

    var es := PushGlslEs(v, exts);
    var legacy := PushLegacyGlGlsl(v, exts);
    var desktop := PushDesktopGlsl(v, exts);
    versions := es + legacy + desktop;
    AdmittedAppend(GLSL_ES_TABLE, LEGACY_GL_GLSL_TABLE, v, exts);
    AdmittedAppend(GLSL_ES_TABLE + LEGACY_GL_GLSL_TABLE, DESKTOP_GLSL_TABLE, v, exts);
  }
}
