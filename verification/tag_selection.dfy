/** The selection of the latest release tag (`getLatestGitReleaseTag` in
    ReleaseTagVersionTask.kt): keep the tags that start with the prefix, strip
    the prefix, parse what is left as a semantic version dropping failures,
    and take the maximum. */
module TagSelection {
  import opened Wrappers
  import opened KotlinText
  import opened SemVer

  /** What the task finds of the repository: whether the configured `gitDir`
      and `gitTagsDir` are set and exist (the plugin points both at
      `.git/refs/tags`), and the exit code and output lines of `git tag -l`. */
  datatype GitRepository = GitRepository(gitDirExists: bool, tagsDirExists: bool, exitCode: int, tagLines: seq<string>)

  /** The semantic-version parser of the library, `String.toVersionOrNull()`. */
  type Parser = string -> Option<SemVersion>

  /** `filter { it.startsWith(prefix) }` */
  function FilterByPrefix(lines: seq<string>, prefix: string): (r: seq<string>)
    ensures forall l :: l in r <==> l in lines && StartsWith(l, prefix)
    ensures |r| <= |lines|
  {
    if lines == [] then []
    else if StartsWith(lines[0], prefix) then [lines[0]] + FilterByPrefix(lines[1..], prefix)
    else FilterByPrefix(lines[1..], prefix)
  }

  /** `mapNotNull { it.removePrefix(prefix).toVersionOrNull() }` */
  function ParseAll(lines: seq<string>, prefix: string, parse: Parser): (r: seq<SemVersion>)
    ensures |r| <= |lines|
    ensures forall l :: l in lines && parse(RemovePrefix(l, prefix)).Some? ==> parse(RemovePrefix(l, prefix)).value in r
    ensures forall v :: v in r ==> exists l :: l in lines && parse(RemovePrefix(l, prefix)) == Some(v)
  {
    if lines == [] then []
    else match parse(RemovePrefix(lines[0], prefix))
      case Some(v) => [v] + ParseAll(lines[1..], prefix, parse)
      case None => ParseAll(lines[1..], prefix, parse)
  }

  /** One step of `maxOrNull`: the running maximum is replaced only by a
      strictly greater element, so the first of equal maxima stays. */
  function Keep(max: SemVersion, e: SemVersion): (r: SemVersion)
    ensures r == max || r == e
    ensures !Less(r, max) && !Less(r, e)
    ensures r == e && e != max ==> Less(max, e)
  {
    LessOrder(max, max, e);
    LessOrder(max, max, max);
    if Less(max, e) then e else max
  }

  function MaxFrom(max: SemVersion, rest: seq<SemVersion>): SemVersion
    decreases |rest|
  {
    if rest == [] then max else MaxFrom(Keep(max, rest[0]), rest[1..])
  }

  /** `maxOrNull()`: `null` for no elements, otherwise a left fold of `Keep`. */
  function MaxOrNull(vs: seq<SemVersion>): (r: Option<SemVersion>)
    ensures r.None? <==> vs == []
  {
    if vs == [] then None else Some(MaxFrom(vs[0], vs[1..]))
  }

  /** The whole pipeline over the lines `git tag -l` printed. */
  function SelectLatest(lines: seq<string>, prefix: string, parse: Parser): Option<SemVersion> {
    MaxOrNull(ParseAll(FilterByPrefix(lines, prefix), prefix, parse))
  }

  /** `getLatestGitReleaseTag()`: no repository data or a failing `git tag -l`
      gives no tag, never an error. */
  function LatestGitReleaseTag(git: GitRepository, prefix: string, parse: Parser): (r: Option<SemVersion>)
    ensures !git.gitDirExists || !git.tagsDirExists || git.exitCode != 0 ==> r.None?
    ensures git.gitDirExists && git.tagsDirExists && git.exitCode == 0 ==> r == SelectLatest(git.tagLines, prefix, parse)
  {
    if !git.gitDirExists then None
    else if !git.tagsDirExists then None
    else if git.exitCode == 0 then SelectLatest(git.tagLines, prefix, parse)
    else None
  }

  /** The version a single tag line contributes: none unless it starts with the
      prefix and the rest parses. */
  function TagVersion(line: string, prefix: string, parse: Parser): Option<SemVersion> {
    if StartsWith(line, prefix) then parse(RemovePrefix(line, prefix)) else None
  }

  /** How the selection changes when `git tag -l` prints one more line. */
  function Step(current: Option<SemVersion>, next: Option<SemVersion>): Option<SemVersion> {
    match next
    case None => current
    case Some(x) =>
      match current
      case None => Some(x)
      case Some(m) => Some(Keep(m, x))
  }

  lemma {:induction false} FilterByPrefixAppend(a: seq<string>, b: seq<string>, prefix: string)
    ensures FilterByPrefix(a + b, prefix) == FilterByPrefix(a, prefix) + FilterByPrefix(b, prefix)
  {
    if a != [] {
      assert (a + b)[1..] == a[1..] + b;
      FilterByPrefixAppend(a[1..], b, prefix);
    } else {
      assert a + b == b;
    }
  }

  lemma {:induction false} ParseAllAppend(a: seq<string>, b: seq<string>, prefix: string, parse: Parser)
    ensures ParseAll(a + b, prefix, parse) == ParseAll(a, prefix, parse) + ParseAll(b, prefix, parse)
  {
    if a != [] {
      assert (a + b)[1..] == a[1..] + b;
      ParseAllAppend(a[1..], b, prefix, parse);
    } else {
      assert a + b == b;
    }
  }

  lemma {:induction false} MaxFromSnoc(max: SemVersion, xs: seq<SemVersion>, x: SemVersion)
    ensures MaxFrom(max, xs + [x]) == Keep(MaxFrom(max, xs), x)
    decreases |xs|
  {
    if xs == [] {
      assert MaxFrom(max, [x]) == MaxFrom(Keep(max, x), []);
    } else {
      assert (xs + [x])[1..] == xs[1..] + [x];
      MaxFromSnoc(Keep(max, xs[0]), xs[1..], x);
    }
  }

  lemma MaxOrNullSnoc(xs: seq<SemVersion>, x: SemVersion)
    ensures MaxOrNull(xs + [x]) == Step(MaxOrNull(xs), Some(x))
  {
    if xs != [] {
      assert (xs + [x])[1..] == xs[1..] + [x];
      MaxFromSnoc(xs[0], xs[1..], x);
    } else {
      assert xs + [x] == [x];
    }
  }

  /** Reading one more tag line updates the selection by one `maxOrNull` step. */
  lemma SelectLatestSnoc(lines: seq<string>, line: string, prefix: string, parse: Parser)
    ensures SelectLatest(lines + [line], prefix, parse) == Step(SelectLatest(lines, prefix, parse), TagVersion(line, prefix, parse))
  {
    var kept := FilterByPrefix(lines, prefix);
    FilterByPrefixAppend(lines, [line], prefix);
    assert FilterByPrefix([line], prefix) == if StartsWith(line, prefix) then [line] else [];
    ParseAllAppend(kept, FilterByPrefix([line], prefix), prefix, parse);
    var parsed := ParseAll(kept, prefix, parse);
    if TagVersion(line, prefix, parse).Some? {
      assert ParseAll(FilterByPrefix([line], prefix), prefix, parse) == [TagVersion(line, prefix, parse).value];
      MaxOrNullSnoc(parsed, TagVersion(line, prefix, parse).value);
    } else {
      assert ParseAll(FilterByPrefix([line], prefix), prefix, parse) == [];
      assert parsed + [] == parsed;
    }
  }

  /** The versions the tag lines contribute, line by line. */
  function TagVersions(lines: seq<string>, prefix: string, parse: Parser): (ts: seq<Option<SemVersion>>)
    ensures |ts| == |lines|
    ensures forall j :: 0 <= j < |lines| ==> ts[j] == TagVersion(lines[j], prefix, parse)
  {
    seq(|lines|, j requires 0 <= j < |lines| => TagVersion(lines[j], prefix, parse))
  }

  /** `Step` applied to the contributions from the first to the last. */
  function StepAll(ts: seq<Option<SemVersion>>): Option<SemVersion> {
    if ts == [] then None else Step(StepAll(ts[..|ts| - 1]), ts[|ts| - 1])
  }

  lemma {:induction false} SelectLatestIsStepAll(lines: seq<string>, prefix: string, parse: Parser)
    ensures SelectLatest(lines, prefix, parse) == StepAll(TagVersions(lines, prefix, parse))
  {
    if lines == [] {
      assert FilterByPrefix(lines, prefix) == [];
    } else {
      var n := |lines| - 1;
      assert lines == lines[..n] + [lines[n]];
      assert TagVersions(lines, prefix, parse)[..n] == TagVersions(lines[..n], prefix, parse);
      SelectLatestIsStepAll(lines[..n], prefix, parse);
      SelectLatestSnoc(lines[..n], lines[n], prefix, parse);
    }
  }

  lemma {:induction false} StepAllNone(ts: seq<Option<SemVersion>>)
    ensures StepAll(ts).None? <==> forall j :: 0 <= j < |ts| ==> ts[j].None?
  {
    if ts != [] {
      var n := |ts| - 1;
      StepAllNone(ts[..n]);
      assert forall j :: 0 <= j < n ==> ts[..n][j] == ts[j];
    }
  }

  lemma {:induction false} StepAllIsUpperBound(ts: seq<Option<SemVersion>>)
    ensures StepAll(ts).Some? ==> forall j :: 0 <= j < |ts| && ts[j].Some? ==> !Less(StepAll(ts).value, ts[j].value)
  {
    if ts != [] {
      var n := |ts| - 1;
      var before := StepAll(ts[..n]);
      StepAllIsUpperBound(ts[..n]);
      StepAllNone(ts[..n]);
      assert forall j :: 0 <= j < n ==> ts[..n][j] == ts[j];
      if ts[n].Some? {
        var x := ts[n].value;
        LessOrder(x, x, x);
        if before.Some? && Less(before.value, x) {
          forall j | 0 <= j < n && ts[j].Some?
            ensures !Less(x, ts[j].value)
          {
            LessOrder(before.value, ts[j].value, x);
          }
        }
      }
    }
  }

  lemma {:induction false} StepAllIsFirst(ts: seq<Option<SemVersion>>)
    ensures StepAll(ts).Some? ==>
              exists i :: 0 <= i < |ts| && ts[i] == StepAll(ts)
                && forall j :: 0 <= j < i && ts[j].Some? ==> Less(ts[j].value, StepAll(ts).value)
  {
    if ts != [] {
      var n := |ts| - 1;
      var before := StepAll(ts[..n]);
      StepAllIsFirst(ts[..n]);
      StepAllIsUpperBound(ts[..n]);
      StepAllNone(ts[..n]);
      assert forall j :: 0 <= j < n ==> ts[..n][j] == ts[j];
      if ts[n].Some? && (before.None? || Less(before.value, ts[n].value)) {
        var x := ts[n].value;
        forall j | 0 <= j < n && ts[j].Some?
          ensures Less(ts[j].value, x)
        {
          LessOrder(before.value, ts[j].value, x);
        }
      } else if before.Some? {
        var i :| 0 <= i < n && ts[..n][i] == before
                 && forall j :: 0 <= j < i && ts[..n][j].Some? ==> Less(ts[..n][j].value, before.value);
        assert ts[i] == StepAll(ts);
      }
    }
  }

  /** Every element of `vs` as a present contribution. */
  function AllPresent(vs: seq<SemVersion>): (ts: seq<Option<SemVersion>>)
    ensures |ts| == |vs|
    ensures forall j :: 0 <= j < |vs| ==> ts[j] == Some(vs[j])
  {
    seq(|vs|, j requires 0 <= j < |vs| => Some(vs[j]))
  }

  lemma {:induction false} MaxOrNullIsStepAll(vs: seq<SemVersion>)
    ensures MaxOrNull(vs) == StepAll(AllPresent(vs))
  {
    if vs != [] {
      var n := |vs| - 1;
      assert vs == vs[..n] + [vs[n]];
      assert AllPresent(vs)[..n] == AllPresent(vs[..n]);
      MaxOrNullIsStepAll(vs[..n]);
      MaxOrNullSnoc(vs[..n], vs[n]);
    }
  }

  /** `maxOrNull()` of any versions is one of them, none is strictly greater,
      and every element before it is strictly lower: the first of the maximal
      elements. */
  lemma MaxOrNullIsFirstMaximum(vs: seq<SemVersion>)
    ensures MaxOrNull(vs).Some? ==>
              exists i :: 0 <= i < |vs| && vs[i] == MaxOrNull(vs).value
                && forall j :: 0 <= j < i ==> Less(vs[j], vs[i])
    ensures MaxOrNull(vs).Some? ==> forall j :: 0 <= j < |vs| ==> !Less(MaxOrNull(vs).value, vs[j])
  {
    var ts := AllPresent(vs);
    MaxOrNullIsStepAll(vs);
    StepAllIsUpperBound(ts);
    StepAllIsFirst(ts);
    if MaxOrNull(vs).Some? {
      var i :| 0 <= i < |ts| && ts[i] == StepAll(ts)
               && forall j :: 0 <= j < i && ts[j].Some? ==> Less(ts[j].value, StepAll(ts).value);
      assert vs[i] == MaxOrNull(vs).value;
    }
  }

  /** The selected version is the version of the first tag line whose version
      has the greatest precedence: it comes from a line that starts with the
      prefix and parses, every qualifying line before it has a strictly lower
      version, no qualifying line has a strictly greater one, and there is no
      selection exactly when no line qualifies. */
  lemma SelectLatestIsFirstMaximum(lines: seq<string>, prefix: string, parse: Parser)
    ensures SelectLatest(lines, prefix, parse).None?
            <==> forall j :: 0 <= j < |lines| ==> TagVersion(lines[j], prefix, parse).None?
    ensures SelectLatest(lines, prefix, parse).Some? ==>
              exists i :: 0 <= i < |lines| && TagVersion(lines[i], prefix, parse) == SelectLatest(lines, prefix, parse)
                && forall j :: 0 <= j < i && TagVersion(lines[j], prefix, parse).Some? ==>
                     Less(TagVersion(lines[j], prefix, parse).value, SelectLatest(lines, prefix, parse).value)
    ensures SelectLatest(lines, prefix, parse).Some? ==>
              forall j :: 0 <= j < |lines| && TagVersion(lines[j], prefix, parse).Some? ==>
                !Less(SelectLatest(lines, prefix, parse).value, TagVersion(lines[j], prefix, parse).value)
  {
    var ts := TagVersions(lines, prefix, parse);
    SelectLatestIsStepAll(lines, prefix, parse);
    StepAllNone(ts);
    StepAllIsUpperBound(ts);
    StepAllIsFirst(ts);
  }
}
