/** Semantic versions as defined by Semantic Versioning 2.0.0: their shape
    (sections 2, 9 and 10), their textual rendering, and their precedence
    (section 11). The task receives these values from a parsing library; the
    parser itself is not part of this model, only the values it produces. */
module SemVer {
  import opened Wrappers
  import opened KotlinText

  /** Section 9/10: identifiers are made of ASCII alphanumerics and hyphens. */
  predicate IsIdentifierChar(c: char) {
    ('0' <= c <= '9') || ('A' <= c <= 'Z') || ('a' <= c <= 'z') || c == '-'
  }

  predicate IsIdentifier(s: string) {
    |s| > 0 && forall i :: 0 <= i < |s| ==> IsIdentifierChar(s[i])
  }

  /** Section 9: numeric pre-release identifiers carry no leading zeros. */
  predicate IsPreReleaseIdentifier(s: string) {
    IsIdentifier(s) && (AllDigits(s) && |s| > 1 ==> s[0] != '0')
  }

  /** major.minor.patch, the dot-separated pre-release identifiers (empty when
      there is no `-` part) and the dot-separated build-metadata identifiers
      (empty when there is no `+` part). */
  datatype Version = Version(major: nat, minor: nat, patch: nat, preRelease: seq<string>, build: seq<string>)

  predicate Valid(v: Version) {
    && (forall i :: 0 <= i < |v.preRelease| ==> IsPreReleaseIdentifier(v.preRelease[i]))
    && (forall i :: 0 <= i < |v.build| ==> IsIdentifier(v.build[i]))
  }

  /** A version a strict Semantic Versioning parser can produce. */
  type SemVersion = v: Version | Valid(v) witness Version(0, 0, 0, [], [])

  /** The identifiers written out with `.` between them. */
  function JoinDots(ids: seq<string>): string {
    if |ids| == 0 then "" else if |ids| == 1 then ids[0] else ids[0] + "." + JoinDots(ids[1..])
  }

  /** The library's `buildMetadata`: `null` when there is no `+` part. */
  function BuildMetadata(v: Version): (r: Option<string>)
    ensures r.Some? <==> v.build != []
    ensures r.Some? ==> ToString(v) == ToString(WithoutBuild(v)) + "+" + r.value
  {
    if v.build == [] then None else Some(JoinDots(v.build))
  }

  /** The library's `toString()`: `major.minor.patch`, then `-pre-release`,
      then `+build` last. */
  function ToString(v: Version): string {
    NatToString(v.major) + "." + NatToString(v.minor) + "." + NatToString(v.patch)
    + (if v.preRelease == [] then "" else "-" + JoinDots(v.preRelease))
    + (if v.build == [] then "" else "+" + JoinDots(v.build))
  }

  /** The same version with its build metadata dropped. */
  function WithoutBuild(v: Version): Version {
    v.(build := [])
  }

  lemma {:induction false} JoinDotsHasNoPlus(ids: seq<string>)
    requires forall i :: 0 <= i < |ids| ==> IsIdentifier(ids[i])
    ensures '+' !in JoinDots(ids)
  {
    if |ids| > 0 {
      assert forall k :: 0 <= k < |ids[0]| ==> ids[0][k] != '+' by {
        assert IsIdentifier(ids[0]);
      }
      if |ids| > 1 {
        JoinDotsHasNoPlus(ids[1..]);
      }
    }
  }

  /** Two or more build identifiers always render with a `.` in between. */
  lemma JoinDotsHasDot(ids: seq<string>)
    ensures |ids| >= 2 ==> '.' in JoinDots(ids)
  {
    if |ids| >= 2 {
      assert JoinDots(ids) == ids[0] + "." + JoinDots(ids[1..]);
      assert JoinDots(ids)[|ids[0]|] == '.';
    }
  }

  lemma NatToStringHasNoPlus(n: nat)
    ensures '+' !in NatToString(n)
  {
    var s := NatToString(n);
    assert forall k :: 0 <= k < |s| ==> s[k] != '+' by {
      assert AllDigits(s);
    }
  }

  /** A valid version without build metadata renders without any `+`. */
  lemma ToStringWithoutBuildHasNoPlus(v: Version)
    requires Valid(v) && v.build == []
    ensures '+' !in ToString(v)
  {
    NatToStringHasNoPlus(v.major);
    NatToStringHasNoPlus(v.minor);
    NatToStringHasNoPlus(v.patch);
    JoinDotsHasNoPlus(v.preRelease);
  }

  /** Removing `"+" + buildMetadata` from the rendering leaves the rendering of
      the version without its build metadata. When there is no metadata the
      Kotlin template renders it as `"+null"`, a suffix a valid version's text
      never ends with. */
  lemma {:induction false} RemoveBuildSuffix(v: Version)
    requires Valid(v)
    ensures RemoveSuffix(ToString(v), "+" + (if v.build == [] then "null" else JoinDots(v.build)))
            == ToString(WithoutBuild(v))
  {
    var core := ToString(WithoutBuild(v));
    if v.build == [] {
      assert ToString(v) == core;
      ToStringWithoutBuildHasNoPlus(v);
      var suffix := "+null";
      if |suffix| <= |core| {
        assert core[|core| - |suffix|] != '+';
        assert core[|core| - |suffix|..][0] != suffix[0];
      }
    } else {
      var suffix := "+" + JoinDots(v.build);
      assert ToString(v) == core + suffix;
      assert (core + suffix)[..|core + suffix| - |suffix|] == core;
    }
  }

  // ---------------------------------------------------------------------------
  // Precedence, section 11. Every comparison returns a negative number, zero
  // or a positive number, like Kotlin's `compareTo`.

  function CompareNat(a: nat, b: nat): int {
    if a < b then -1 else if a > b then 1 else 0
  }

  /** Section 11.4.2: alphanumeric identifiers compare lexically in ASCII order. */
  function CompareAscii(x: string, y: string): int {
    if x == [] && y == [] then 0
    else if x == [] then -1
    else if y == [] then 1
    else if x[0] < y[0] then -1
    else if x[0] > y[0] then 1
    else CompareAscii(x[1..], y[1..])
  }

  /** Sections 11.4.1 to 11.4.3: numeric identifiers compare numerically and
      rank below alphanumeric ones. */
  function CompareIdentifier(x: string, y: string): int {
    var xNumeric := |x| > 0 && AllDigits(x);
    var yNumeric := |y| > 0 && AllDigits(y);
    if xNumeric && yNumeric then CompareNat(DigitsValue(x), DigitsValue(y))
    else if xNumeric then -1
    else if yNumeric then 1
    else CompareAscii(x, y)
  }

  /** Section 11.4: identifier by identifier from the left; when one list is a
      prefix of the other, the longer list has the higher precedence (11.4.4). */
  function CompareIdentifierLists(p: seq<string>, q: seq<string>): int {
    if p == [] && q == [] then 0
    else if p == [] then -1
    else if q == [] then 1
    else
      var c := CompareIdentifier(p[0], q[0]);
      if c != 0 then c else CompareIdentifierLists(p[1..], q[1..])
  }

  /** Section 11.3: a version without pre-release outranks one with pre-release. */
  function ComparePreRelease(p: seq<string>, q: seq<string>): int {
    if p == [] && q == [] then 0
    else if p == [] then 1
    else if q == [] then -1
    else CompareIdentifierLists(p, q)
  }

  /** Section 11.2 and 11.3: major, minor and patch numerically, then the
      pre-release. Build metadata takes no part (section 10). */
  function Compare(a: Version, b: Version): int {
    if a.major != b.major then CompareNat(a.major, b.major)
    else if a.minor != b.minor then CompareNat(a.minor, b.minor)
    else if a.patch != b.patch then CompareNat(a.patch, b.patch)
    else ComparePreRelease(a.preRelease, b.preRelease)
  }

  /** `a < b` in the library's `Comparable` order. */
  predicate Less(a: Version, b: Version) {
    Compare(a, b) < 0
  }

  lemma {:induction false} CompareAsciiAntisymmetric(x: string, y: string)
    ensures CompareAscii(x, y) == -CompareAscii(y, x)
  {
    if x != [] && y != [] && x[0] == y[0] {
      CompareAsciiAntisymmetric(x[1..], y[1..]);
    }
  }

  lemma {:induction false} CompareAsciiTransitive(x: string, y: string, z: string)
    requires CompareAscii(x, y) <= 0 && CompareAscii(y, z) <= 0
    ensures CompareAscii(x, z) <= 0
  {
    if x != [] && y != [] && z != [] && x[0] == y[0] && y[0] == z[0] {
      CompareAsciiTransitive(x[1..], y[1..], z[1..]);
    }
  }

  lemma CompareIdentifierAntisymmetric(x: string, y: string)
    ensures CompareIdentifier(x, y) == -CompareIdentifier(y, x)
  {
    CompareAsciiAntisymmetric(x, y);
  }

  lemma CompareIdentifierTransitive(x: string, y: string, z: string)
    requires CompareIdentifier(x, y) <= 0 && CompareIdentifier(y, z) <= 0
    ensures CompareIdentifier(x, z) <= 0
  {
    if !(|x| > 0 && AllDigits(x)) && !(|y| > 0 && AllDigits(y)) && !(|z| > 0 && AllDigits(z)) {
      CompareAsciiTransitive(x, y, z);
    }
  }

  /** The consequences of antisymmetry and transitivity used for the
      lexicographic comparison of identifier lists. */
  lemma CompareIdentifierChain(x: string, y: string, z: string)
    ensures CompareIdentifier(x, y) < 0 && CompareIdentifier(y, z) <= 0 ==> CompareIdentifier(x, z) < 0
    ensures CompareIdentifier(x, y) <= 0 && CompareIdentifier(y, z) < 0 ==> CompareIdentifier(x, z) < 0
    ensures CompareIdentifier(x, y) == 0 && CompareIdentifier(y, z) == 0 ==> CompareIdentifier(x, z) == 0
  {
    CompareIdentifierAntisymmetric(x, y);
    CompareIdentifierAntisymmetric(y, z);
    CompareIdentifierAntisymmetric(x, z);
    if CompareIdentifier(x, y) <= 0 && CompareIdentifier(y, z) <= 0 {
      CompareIdentifierTransitive(x, y, z);
    }
    if CompareIdentifier(z, x) <= 0 && CompareIdentifier(x, y) <= 0 {
      CompareIdentifierTransitive(z, x, y);
    }
    if CompareIdentifier(y, z) <= 0 && CompareIdentifier(z, x) <= 0 {
      CompareIdentifierTransitive(y, z, x);
    }
    if CompareIdentifier(z, y) <= 0 && CompareIdentifier(y, x) <= 0 {
      CompareIdentifierTransitive(z, y, x);
    }
  }

  lemma {:induction false} CompareIdentifierListsAntisymmetric(p: seq<string>, q: seq<string>)
    ensures CompareIdentifierLists(p, q) == -CompareIdentifierLists(q, p)
  {
    if p != [] && q != [] {
      CompareIdentifierAntisymmetric(p[0], q[0]);
      CompareIdentifierListsAntisymmetric(p[1..], q[1..]);
    }
  }

  lemma {:induction false} CompareIdentifierListsTransitive(p: seq<string>, q: seq<string>, r: seq<string>)
    requires CompareIdentifierLists(p, q) <= 0 && CompareIdentifierLists(q, r) <= 0
    ensures CompareIdentifierLists(p, r) <= 0
  {
    if p != [] && q != [] && r != [] {
      CompareIdentifierChain(p[0], q[0], r[0]);
      if CompareIdentifier(p[0], q[0]) == 0 && CompareIdentifier(q[0], r[0]) == 0 {
        CompareIdentifierListsTransitive(p[1..], q[1..], r[1..]);
      }
    }
  }

  lemma ComparePreReleaseAntisymmetric(p: seq<string>, q: seq<string>)
    ensures ComparePreRelease(p, q) == -ComparePreRelease(q, p)
  {
    CompareIdentifierListsAntisymmetric(p, q);
  }

  lemma ComparePreReleaseTransitive(p: seq<string>, q: seq<string>, r: seq<string>)
    requires ComparePreRelease(p, q) <= 0 && ComparePreRelease(q, r) <= 0
    ensures ComparePreRelease(p, r) <= 0
  {
    if p != [] && q != [] && r != [] {
      CompareIdentifierListsTransitive(p, q, r);
    }
  }

  /** Precedence is antisymmetric: swapping the operands flips the sign. */
  lemma CompareAntisymmetric(a: Version, b: Version)
    ensures Compare(a, b) == -Compare(b, a)
  {
    ComparePreReleaseAntisymmetric(a.preRelease, b.preRelease);
  }

  /** Precedence is transitive. */
  lemma CompareTransitive(a: Version, b: Version, c: Version)
    requires Compare(a, b) <= 0 && Compare(b, c) <= 0
    ensures Compare(a, c) <= 0
  {
    if a.major == b.major == c.major && a.minor == b.minor == c.minor && a.patch == b.patch == c.patch {
      ComparePreReleaseTransitive(a.preRelease, b.preRelease, c.preRelease);
    }
  }

  /** The order facts the selection of the latest tag rests on: `Less` is
      irreflexive and asymmetric, and anything not above `m` is below every
      version above `m`. */
  lemma LessOrder(m: Version, w: Version, x: Version)
    ensures !Less(x, x)
    ensures Less(w, x) ==> !Less(x, w)
    ensures !Less(m, w) && Less(m, x) ==> Less(w, x)
  {
    CompareAntisymmetric(x, x);
    CompareAntisymmetric(w, x);
    CompareAntisymmetric(m, w);
    CompareAntisymmetric(m, x);
    if !Less(m, w) && Less(m, x) && !Less(w, x) {
      CompareAntisymmetric(w, x);
      CompareTransitive(x, w, m);
    }
  }

  /** Precedence is total: of two versions, one is below the other or the two
      have equal precedence. */
  lemma LessTotal(a: Version, b: Version)
    ensures Less(a, b) || Less(b, a) || Compare(a, b) == 0
  {
    CompareAntisymmetric(a, b);
  }

  /** The example chain of section 11.4 of Semantic Versioning 2.0.0, first
      part: a longer list of pre-release identifiers ranks above its prefix,
      and a numeric identifier below an alphanumeric one. */
  lemma SectionElevenAlpha()
    ensures Less(Version(1, 0, 0, ["alpha"], []), Version(1, 0, 0, ["alpha", "1"], []))
    ensures Less(Version(1, 0, 0, ["alpha", "1"], []), Version(1, 0, 0, ["alpha", "beta"], []))
    ensures Less(Version(1, 0, 0, ["alpha", "beta"], []), Version(1, 0, 0, ["beta"], []))
  {
    assert !AllDigits("alpha") by { assert !IsDigit("alpha"[0]); }
    assert !AllDigits("beta") by { assert !IsDigit("beta"[0]); }
    assert AllDigits("1");
  }

  /** The rest of the chain of section 11.4: numeric identifiers compare as
      numbers, and a release ranks above its pre-releases. */
  lemma SectionElevenBeta()
    ensures Less(Version(1, 0, 0, ["beta"], []), Version(1, 0, 0, ["beta", "2"], []))
    ensures Less(Version(1, 0, 0, ["beta", "2"], []), Version(1, 0, 0, ["beta", "11"], []))
    ensures Less(Version(1, 0, 0, ["beta", "11"], []), Version(1, 0, 0, ["rc", "1"], []))
    ensures Less(Version(1, 0, 0, ["rc", "1"], []), Version(1, 0, 0, [], []))
  {
    assert DigitsValue("2") == 2;
    assert DigitsValue("11") == 11 by { assert "11"[..1] == "1"; }
    assert !AllDigits("beta") by { assert !IsDigit("beta"[0]); }
    assert !AllDigits("rc") by { assert !IsDigit("rc"[0]); }
    assert AllDigits("1");
  }

  /** Section 11.2 compares the numeric fields as numbers; section 10 leaves
      build metadata out of precedence. */
  lemma SectionElevenNumbersAndBuild()
    ensures Less(Version(1, 9, 0, [], []), Version(1, 10, 0, [], []))
    ensures Compare(Version(1, 0, 0, [], ["1"]), Version(1, 0, 0, [], ["2"])) == 0
  {
  }
}
