/** What the shading-language list promises: table order without repeats,
    membership row by row, and how it grows with the context. */
module GlslFacts {
  import opened GlVersion
  import opened GlExtensions
  import opened Gates
  import opened GlDriver
  import opened Glsl

  /** `a` comes before `b` in the table order: every GLSL ES version before
      every desktop version, and each family in ascending order. */
  predicate Precedes(a: Version, b: Version) {
    (a.api == GlEs && b.api == Gl)
    || (a.api == b.api && (a.major < b.major || (a.major == b.major && a.minor < b.minor)))
  }

  predicate StrictlyOrdered(vs: seq<Version>) {
    forall i, j :: 0 <= i < j < |vs| ==> Precedes(vs[i], vs[j])
  }

  predicate Distinct(vs: seq<Version>) {
    forall i, j :: 0 <= i < j < |vs| ==> vs[i] != vs[j]
  }

  /** `xs` is obtained from `ys` by dropping elements. */
  predicate IsSubsequence(xs: seq<Version>, ys: seq<Version>)
    decreases |ys|
  {
    if ys == [] then xs == []
    else IsSubsequence(xs, ys[1..]) || (xs != [] && xs[0] == ys[0] && IsSubsequence(xs[1..], ys[1..]))
  }

  /** Each element precedes the next. */
  predicate Chain(vs: seq<Version>) {
    forall i :: 0 <= i < |vs| - 1 ==> Precedes(vs[i], vs[i + 1])
  }

  lemma PrecedesTransitive(a: Version, b: Version, c: Version)
    requires Precedes(a, b) && Precedes(b, c)
    ensures Precedes(a, c)
  {
  }

  lemma {:induction false} ChainIsStrictlyOrdered(vs: seq<Version>)
    requires Chain(vs)
    ensures StrictlyOrdered(vs)
  {
    if |vs| >= 2 {
      var tail := vs[1..];
      assert Chain(tail) by {
        forall i | 0 <= i < |tail| - 1
          ensures Precedes(tail[i], tail[i + 1])
        {
          assert tail[i] == vs[i + 1] && tail[i + 1] == vs[i + 2];
        }
      }
      ChainIsStrictlyOrdered(tail);
      forall i, j | 0 <= i < j < |vs|
        ensures Precedes(vs[i], vs[j])
      {
        if i > 0 {
          assert vs[i] == tail[i - 1] && vs[j] == tail[j - 1];
        } else if j > 1 {
          assert vs[1] == tail[0] && vs[j] == tail[j - 1];
          PrecedesTransitive(vs[0], vs[1], vs[j]);
        }
      }
    }
  }

  lemma {:induction false} VersionsAppend(a: seq<GlslEntry>, b: seq<GlslEntry>)
    ensures Versions(a + b) == Versions(a) + Versions(b)
  {
    if a == [] {
      assert a + b == b;
    } else {
      assert (a + b)[1..] == a[1..] + b;
      VersionsAppend(a[1..], b);
    }
  }

  lemma ChainAppend(a: seq<Version>, b: seq<Version>)
    requires Chain(a) && Chain(b)
    requires a != [] && b != [] && Precedes(a[|a| - 1], b[0])
    ensures Chain(a + b)
  {
    forall i | 0 <= i < |a + b| - 1
      ensures Precedes((a + b)[i], (a + b)[i + 1])
    {
      if i >= |a| {
        assert (a + b)[i] == b[i - |a|] && (a + b)[i + 1] == b[i - |a| + 1];
      }
    }
  }

  lemma EsGlslChain()
    ensures Chain(Versions(GLSL_ES_TABLE))
    ensures Versions(GLSL_ES_TABLE)[|GLSL_ES_TABLE| - 1] == OpenGlEs(3, 2)
  {
    assert Versions(GLSL_ES_TABLE) == [OpenGlEs(1, 0), OpenGlEs(3, 0), OpenGlEs(3, 1), OpenGlEs(3, 2)];
  }

  lemma LegacyGlGlslChain()
    ensures Chain(Versions(LEGACY_GL_GLSL_TABLE))
    ensures Versions(LEGACY_GL_GLSL_TABLE)[0] == OpenGl(1, 1)
    ensures Versions(LEGACY_GL_GLSL_TABLE)[|LEGACY_GL_GLSL_TABLE| - 1] == OpenGl(1, 5)
  {
    assert Versions(LEGACY_GL_GLSL_TABLE) == [OpenGl(1, 1), OpenGl(1, 2), OpenGl(1, 3), OpenGl(1, 4), OpenGl(1, 5)];
  }

  lemma DesktopGlslChain()
    ensures Chain(Versions(DESKTOP_GLSL_TABLE))
    ensures Versions(DESKTOP_GLSL_TABLE)[0] == OpenGl(3, 3)
  {
    assert Versions(DESKTOP_GLSL_TABLE)
        == [OpenGl(3, 3), OpenGl(4, 0), OpenGl(4, 1), OpenGl(4, 2), OpenGl(4, 3), OpenGl(4, 4), OpenGl(4, 5)];
  }

  /** The table lists GLSL ES 1.00 to 3.20, then desktop GLSL 1.10 to 4.50, each once and in that order. */
  lemma GlslTableStrictlyOrdered()
    ensures StrictlyOrdered(Versions(GLSL_TABLE))
  {
    VersionsAppend(GLSL_ES_TABLE, LEGACY_GL_GLSL_TABLE);
    VersionsAppend(GLSL_ES_TABLE + LEGACY_GL_GLSL_TABLE, DESKTOP_GLSL_TABLE);
    EsGlslChain();
    LegacyGlGlslChain();
    DesktopGlslChain();
    var es, legacy := Versions(GLSL_ES_TABLE), Versions(LEGACY_GL_GLSL_TABLE);
    ChainAppend(es, legacy);
    assert (es + legacy)[|es + legacy| - 1] == legacy[|legacy| - 1];
    ChainAppend(es + legacy, Versions(DESKTOP_GLSL_TABLE));
    ChainIsStrictlyOrdered(Versions(GLSL_TABLE));
  }

  lemma {:induction false} AdmittedIsSubsequence(table: seq<GlslEntry>, v: Version, exts: ExtensionsList)
    ensures IsSubsequence(Admitted(table, v, exts), Versions(table))
  {
    if table != [] {
      AdmittedIsSubsequence(table[1..], v, exts);
      var rest := Admitted(table[1..], v, exts);
      if Holds(table[0].gate, v, exts) {
        assert Admitted(table, v, exts) == [table[0].version] + rest;
        assert ([table[0].version] + rest)[1..] == rest;
      } else {
        assert Admitted(table, v, exts) == rest;
      }
    }
  }

  lemma {:induction false} EmptyIsSubsequence(ys: seq<Version>)
    ensures IsSubsequence([], ys)
    decreases |ys|
  {
    if ys != [] {
      EmptyIsSubsequence(ys[1..]);
    }
  }

  lemma {:induction false} SubsequenceKeepsOrder(xs: seq<Version>, ys: seq<Version>)
    requires IsSubsequence(xs, ys)
    requires StrictlyOrdered(ys)
    ensures StrictlyOrdered(xs)
    ensures forall x :: x in xs ==> x in ys
    decreases |ys|
  {
    if ys != [] {
      assert StrictlyOrdered(ys[1..]) by {
        forall i, j | 0 <= i < j < |ys[1..]|
          ensures Precedes(ys[1..][i], ys[1..][j])
        {
          assert ys[1..][i] == ys[i + 1] && ys[1..][j] == ys[j + 1];
        }
      }
      if IsSubsequence(xs, ys[1..]) {
        SubsequenceKeepsOrder(xs, ys[1..]);
      } else {
        SubsequenceKeepsOrder(xs[1..], ys[1..]);
        forall i, j | 0 <= i < j < |xs|
          ensures Precedes(xs[i], xs[j])
        {
          assert xs[j] == xs[1..][j - 1];
          if i > 0 {
            assert xs[i] == xs[1..][i - 1];
          } else {
            assert xs[j] in ys[1..];
            var k :| 0 <= k < |ys[1..]| && ys[1..][k] == xs[j];
            assert ys[k + 1] == xs[j];
          }
        }
        forall x | x in xs
          ensures x in ys
        {
          if x != xs[0] {
            assert x in xs[1..];
          }
        }
      }
    }
  }

  /** The list never repeats a version, lists versions in table order, and is
      obtained from the table by dropping the rows whose gate fails. */
  lemma SupportedGlslInTableOrder(d: Driver, v: Version, exts: ExtensionsList)
    ensures IsSubsequence(SupportedGlsl(d, v, exts).value, Versions(GLSL_TABLE))
    ensures StrictlyOrdered(SupportedGlsl(d, v, exts).value)
    ensures Distinct(SupportedGlsl(d, v, exts).value)
  {
    var r := SupportedGlsl(d, v, exts).value;
    if Compilerless(d, v) {
      EmptyIsSubsequence(Versions(GLSL_TABLE));
    } else {
      AdmittedIsSubsequence(GLSL_TABLE, v, exts);
    }
    GlslTableStrictlyOrdered();
    SubsequenceKeepsOrder(r, Versions(GLSL_TABLE));
  }

  lemma {:induction false} AdmittedFromTable(table: seq<GlslEntry>, v: Version, exts: ExtensionsList)
    ensures forall x :: x in Admitted(table, v, exts) ==> x in Versions(table)
  {
    if table != [] {
      AdmittedFromTable(table[1..], v, exts);
      assert Versions(table) == [table[0].version] + Versions(table[1..]);
    }
  }

  /** In a table without repeated versions, a row's version is admitted exactly when its gate holds. */
  lemma {:induction false} AdmittedMembership(table: seq<GlslEntry>, v: Version, exts: ExtensionsList, i: nat)
    requires i < |table|
    requires Distinct(Versions(table))
    ensures table[i].version in Admitted(table, v, exts) <==> Holds(table[i].gate, v, exts)
  {
    var rest := table[1..];
    assert Distinct(Versions(rest)) by {
      forall a, b | 0 <= a < b < |rest|
        ensures Versions(rest)[a] != Versions(rest)[b]
      {
        assert Versions(rest)[a] == Versions(table)[a + 1] && Versions(rest)[b] == Versions(table)[b + 1];
      }
    }
    AdmittedFromTable(rest, v, exts);
    if i == 0 {
      assert table[0].version !in Admitted(rest, v, exts) by {
        forall k | 0 <= k < |rest|
          ensures Versions(rest)[k] != table[0].version
        {
          assert Versions(table)[k + 1] == Versions(rest)[k] && Versions(table)[0] == table[0].version;
        }
      }
    } else {
      AdmittedMembership(rest, v, exts, i - 1);
      assert Versions(table)[0] != Versions(table)[i];
    }
  }

  /** A version of the table is listed exactly when the context has a compiler
      and the version's gate holds. */
  lemma SupportedGlslMembership(d: Driver, v: Version, exts: ExtensionsList, i: nat)
    requires i < |GLSL_TABLE|
    ensures GLSL_TABLE[i].version in SupportedGlsl(d, v, exts).value
        <==> !Compilerless(d, v) && Holds(GLSL_TABLE[i].gate, v, exts)
  {
    GlslTableStrictlyOrdered();
    AdmittedMembership(GLSL_TABLE, v, exts, i);
  }

  /** Each desktop release from 3.3 to 4.5 is listed exactly when the context is
      a desktop context of at least that release. */
  lemma DesktopGlslIffAtLeast(d: Driver, v: Version, exts: ExtensionsList, i: nat)
    requires i < |DESKTOP_GLSL_RELEASES|
    ensures OpenGl(DESKTOP_GLSL_RELEASES[i].0, DESKTOP_GLSL_RELEASES[i].1) in SupportedGlsl(d, v, exts).value
        <==> v.api == Gl && v.AtLeast(OpenGl(DESKTOP_GLSL_RELEASES[i].0, DESKTOP_GLSL_RELEASES[i].1))
  {
    var k := |GLSL_ES_TABLE| + |LEGACY_GL_GLSL_TABLE| + i;
    assert GLSL_TABLE[k] == DesktopEntry(DESKTOP_GLSL_RELEASES[i]);
    SupportedGlslMembership(d, v, exts, k);
  }

  /** Every row except those of GLSL 1.10, 1.20 and 1.30 is admitted by a gate
      made only of lower version bounds and present extensions. */
  lemma GlslGatesPositiveExceptLegacy(i: nat)
    requires i < |GLSL_TABLE|
    requires GLSL_TABLE[i].version != OpenGl(1, 1)
    requires GLSL_TABLE[i].version != OpenGl(1, 2)
    requires GLSL_TABLE[i].version != OpenGl(1, 3)
    ensures Positive(GLSL_TABLE[i].gate)
  {
    if i < |GLSL_ES_TABLE| {
      assert GLSL_TABLE[i] == GLSL_ES_TABLE[i];
    } else if i < |GLSL_ES_TABLE| + |LEGACY_GL_GLSL_TABLE| {
      assert GLSL_TABLE[i] == LEGACY_GL_GLSL_TABLE[i - |GLSL_ES_TABLE|];
    } else {
      assert GLSL_TABLE[i] == DESKTOP_GLSL_TABLE[i - |GLSL_ES_TABLE| - |LEGACY_GL_GLSL_TABLE|];
    }
  }

  /** Raising the context version within its family and adding extensions never
      removes a version from the list, GLSL 1.10 to 1.30 excepted (a core
      context after 3.0 drops them), provided the new context has a compiler. */
  lemma SupportedGlslMonotone(d1: Driver, v1: Version, e1: ExtensionsList,
                              d2: Driver, v2: Version, e2: ExtensionsList, x: Version)
    requires v2.AtLeast(v1) && e1 <= e2 && !Compilerless(d2, v2)
    requires x != OpenGl(1, 1) && x != OpenGl(1, 2) && x != OpenGl(1, 3)
    requires x in SupportedGlsl(d1, v1, e1).value
    ensures x in SupportedGlsl(d2, v2, e2).value
  {
    AdmittedFromTable(GLSL_TABLE, v1, e1);
    var i :| 0 <= i < |Versions(GLSL_TABLE)| && Versions(GLSL_TABLE)[i] == x;
    SupportedGlslMembership(d1, v1, e1, i);
    SupportedGlslMembership(d2, v2, e2, i);
    GlslGatesPositiveExceptLegacy(i);
    PositiveGateMonotone(GLSL_TABLE[i].gate, v1, e1, v2, e2);
  }

  /** The exception is real: a 3.0 context lists GLSL 1.30, a 3.1 context without
      the compatibility extension does not. */
  lemma LegacyGlslNotMonotone(d: Driver)
    ensures OpenGl(1, 3) in SupportedGlsl(d, OpenGl(3, 0), {}).value
    ensures OpenGl(1, 3) !in SupportedGlsl(d, OpenGl(3, 1), {}).value
  {
    assert GLSL_TABLE[6] == LEGACY_GL_GLSL_TABLE[2];
    SupportedGlslMembership(d, OpenGl(3, 0), {}, 6);
    SupportedGlslMembership(d, OpenGl(3, 1), {}, 6);
  }

  /** Both families can appear in one list: a desktop 4.5 context lists GLSL ES 3.10 and GLSL 4.50. */
  lemma DesktopContextListsBothFamilies(d: Driver, exts: ExtensionsList)
    ensures OpenGlEs(3, 1) in SupportedGlsl(d, OpenGl(4, 5), exts).value
    ensures OpenGl(4, 5) in SupportedGlsl(d, OpenGl(4, 5), exts).value
  {
    assert GLSL_TABLE[2] == GLSL_ES_TABLE[2];
    GlslEsGatesMatchSource(OpenGl(4, 5), exts);
    SupportedGlslMembership(d, OpenGl(4, 5), exts, 2);
    DesktopGlslIffAtLeast(d, OpenGl(4, 5), exts, 6);
  }
}
