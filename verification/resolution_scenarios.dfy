/** Worked examples of the resolution with the plugin's conventions: the
    strategies of the plugin's test suite and the examples of its disabled
    tests. The parser is left open: each example states only what it must
    return for the strings the example feeds it. */
module ResolutionScenarios {
  import opened Wrappers
  import opened KotlinText
  import opened SemVer
  import opened TagSelection
  import opened ReleaseTagVersion

  /** A repository whose `git tag -l` printed the given lines. */
  function Tags(lines: seq<string>): GitRepository {
    GitRepository(true, true, 0, lines)
  }

  const NoRepository: GitRepository := GitRepository(false, false, 0, [])

  function Outputs(code: Int32, codeSource: VersionSource, name: string, nameSource: VersionSource): Result<TaskOutputs, string> {
    Success(TaskOutputs(Some(Sourced(code, codeSource)), Some(Sourced(name, nameSource))))
  }

  // Steps shared by the examples.

  /** A text that parses, once the prefix is removed, gives that version's
      information. */
  lemma TextTier(text: string, prefix: string, parse: Parser, source: VersionSource, v: SemVersion)
    requires parse(RemovePrefix(text, prefix)) == Some(v)
    ensures InfoFromText(Some(text), prefix, parse, source) == Some(ExtractVersionInfoFromSemVer(v, source))
  {
  }

  /** A repository in which one line survives the prefix filter gives that
      line's version as the latest tag. */
  lemma TagTier(inputs: TaskInputs, parse: Parser, line: string, v: SemVersion)
    requires inputs.git.gitDirExists && inputs.git.tagsDirExists && inputs.git.exitCode == 0
    requires FilterByPrefix(inputs.git.tagLines, inputs.versionPrefix) == [line]
    requires parse(RemovePrefix(line, inputs.versionPrefix)) == Some(v)
    ensures LatestGitReleaseInfo(inputs, parse) == Some(ExtractVersionInfoFromSemVer(v, LatestGitTag))
  {
    assert ParseAll([line], inputs.versionPrefix, parse) == [v];
  }

  /** Removing the empty prefix changes nothing. */
  lemma NoPrefix(s: string)
    ensures RemovePrefix(s, "") == s
  {
    assert StartsWith(s, "");
  }

  /** The information derived from a version with at most one build
      identifier. */
  lemma Derived(v: SemVersion, source: VersionSource, code: Option<Int32>, name: string)
    requires (v.build == [] && code == None) || (|v.build| == 1 && ToIntOrNull(v.build[0]) == code)
    requires ToString(WithoutBuild(v)) == name
    ensures ExtractVersionInfoFromSemVer(v, source) == VersionInfo(code, Some(name), source, source)
  {
  }

  // The versions the examples use, and what each derives to.

  lemma Derived100Plus1(source: VersionSource)
    ensures ExtractVersionInfoFromSemVer(Version(1, 0, 0, [], ["1"]), source) == VersionInfo(Some(1), Some("1.0.0"), source, source)
  {
    assert DigitsValue("1") == 1;
    assert ToString(Version(1, 0, 0, [], [])) == "1.0.0";
    Derived(Version(1, 0, 0, [], ["1"]), source, Some(1), "1.0.0");
  }

  lemma Derived100Plus2(source: VersionSource)
    ensures ExtractVersionInfoFromSemVer(Version(1, 0, 0, [], ["2"]), source) == VersionInfo(Some(2), Some("1.0.0"), source, source)
  {
    assert DigitsValue("2") == 2;
    assert ToString(Version(1, 0, 0, [], [])) == "1.0.0";
    Derived(Version(1, 0, 0, [], ["2"]), source, Some(2), "1.0.0");
  }

  lemma Derived102Plus3(source: VersionSource)
    ensures ExtractVersionInfoFromSemVer(Version(1, 0, 2, [], ["3"]), source) == VersionInfo(Some(3), Some("1.0.2"), source, source)
  {
    assert DigitsValue("3") == 3;
    assert ToString(Version(1, 0, 2, [], [])) == "1.0.2";
    Derived(Version(1, 0, 2, [], ["3"]), source, Some(3), "1.0.2");
  }

  lemma Derived103Plus4(source: VersionSource)
    ensures ExtractVersionInfoFromSemVer(Version(1, 0, 3, [], ["4"]), source) == VersionInfo(Some(4), Some("1.0.3"), source, source)
  {
    assert DigitsValue("4") == 4;
    assert ToString(Version(1, 0, 3, [], [])) == "1.0.3";
    Derived(Version(1, 0, 3, [], ["4"]), source, Some(4), "1.0.3");
  }

  lemma Derived123(source: VersionSource)
    ensures ExtractVersionInfoFromSemVer(Version(1, 2, 3, [], []), source) == VersionInfo(None, Some("1.2.3"), source, source)
  {
    assert ToString(Version(1, 2, 3, [], [])) == "1.2.3";
    Derived(Version(1, 2, 3, [], []), source, None, "1.2.3");
  }

  lemma Derived123Plus4(source: VersionSource)
    ensures ExtractVersionInfoFromSemVer(Version(1, 2, 3, [], ["4"]), source) == VersionInfo(Some(4), Some("1.2.3"), source, source)
  {
    assert DigitsValue("4") == 4;
    assert ToString(Version(1, 2, 3, [], [])) == "1.2.3";
    Derived(Version(1, 2, 3, [], ["4"]), source, Some(4), "1.2.3");
  }

  lemma Derived123PlusAbc(source: VersionSource)
    ensures ExtractVersionInfoFromSemVer(Version(1, 2, 3, [], ["abc"]), source) == VersionInfo(None, Some("1.2.3"), source, source)
  {
    assert !IsDigit("abc"[0]);
    assert ToString(Version(1, 2, 3, [], [])) == "1.2.3";
    Derived(Version(1, 2, 3, [], ["abc"]), source, None, "1.2.3");
  }

  lemma Derived124Plus5(source: VersionSource)
    ensures ExtractVersionInfoFromSemVer(Version(1, 2, 4, [], ["5"]), source) == VersionInfo(Some(5), Some("1.2.4"), source, source)
  {
    assert DigitsValue("5") == 5;
    assert ToString(Version(1, 2, 4, [], [])) == "1.2.4";
    Derived(Version(1, 2, 4, [], ["5"]), source, Some(5), "1.2.4");
  }

  // The strategies of the test suite, each in a release build. Unless a
  // strategy says otherwise, the repository is tagged `1.0.0+2` and the
  // override file holds `1.0.2+3`.

  /** Fallback: no override, no file and no repository. */
  lemma FallbackStrategy(parse: Parser)
    ensures GetVersion(WithConventions(map[], None, NoRepository, "release"), parse)
            == Outputs(1, Fallback, "1.0.0", Fallback)
  {
    var inputs := WithConventions(map[], None, NoRepository, "release");
    FirstPresentOfFour(CodeTiers(inputs, parse));
    FirstPresentOfFour(NameTiers(inputs, parse));
  }

  /** LatestGitTag: the repository's only tag `1.0.0+2`. */
  lemma LatestGitTagStrategy(parse: Parser)
    requires parse("1.0.0+2") == Some(Version(1, 0, 0, [], ["2"]))
    ensures GetVersion(WithConventions(map[], None, Tags(["1.0.0+2"]), "release"), parse)
            == Outputs(2, LatestGitTag, "1.0.0", LatestGitTag)
  {
    var inputs := WithConventions(map[], None, Tags(["1.0.0+2"]), "release");
    NoPrefix("1.0.0+2");
    TagTier(inputs, parse, "1.0.0+2", Version(1, 0, 0, [], ["2"]));
    Derived100Plus2(LatestGitTag);
    FirstPresentOfFour(CodeTiers(inputs, parse));
    FirstPresentOfFour(NameTiers(inputs, parse));
  }

  /** LatestGitTagWithPrefix: tags `2.0.0+100` and `v1.0.0+2` with the
      prefix `v`; only the second one is considered. */
  lemma LatestGitTagWithPrefixStrategy(parse: Parser)
    requires parse("1.0.0+2") == Some(Version(1, 0, 0, [], ["2"]))
    ensures GetVersion(WithConventions(map[], None, Tags(["2.0.0+100", "v1.0.0+2"]), "release").(versionPrefix := "v"), parse)
            == Outputs(2, LatestGitTag, "1.0.0", LatestGitTag)
  {
    var inputs := WithConventions(map[], None, Tags(["2.0.0+100", "v1.0.0+2"]), "release").(versionPrefix := "v");
    assert "2.0.0+100"[0] != 'v' && "v1.0.0+2"[..1] == "v";
    assert FilterByPrefix(["2.0.0+100", "v1.0.0+2"], "v") == ["v1.0.0+2"];
    assert RemovePrefix("v1.0.0+2", "v") == "1.0.0+2";
    TagTier(inputs, parse, "v1.0.0+2", Version(1, 0, 0, [], ["2"]));
    Derived100Plus2(LatestGitTag);
    FirstPresentOfFour(CodeTiers(inputs, parse));
    FirstPresentOfFour(NameTiers(inputs, parse));
  }

  /** VersionFileOverride: the override file `1.0.2+3` beats the tag. */
  lemma VersionFileOverrideStrategy(parse: Parser)
    requires parse("1.0.2+3") == Some(Version(1, 0, 2, [], ["3"]))
    ensures GetVersion(WithConventions(map[], Some("1.0.2+3"), Tags(["1.0.0+2"]), "release"), parse)
            == Outputs(3, OverridingFile, "1.0.2", OverridingFile)
  {
    var inputs := WithConventions(map[], Some("1.0.2+3"), Tags(["1.0.0+2"]), "release");
    NoPrefix("1.0.2+3");
    TextTier("1.0.2+3", "", parse, OverridingFile, Version(1, 0, 2, [], ["3"]));
    Derived102Plus3(OverridingFile);
    FirstPresentOfFour(CodeTiers(inputs, parse));
    FirstPresentOfFour(NameTiers(inputs, parse));
  }

  /** VersionOverride: `versionOverride` `1.0.3+4`, set in the build file,
      beats the override file and the tag. */
  lemma VersionOverrideStrategy(parse: Parser)
    requires parse("1.0.3+4") == Some(Version(1, 0, 3, [], ["4"]))
    ensures GetVersion(WithConventions(map[], Some("1.0.2+3"), Tags(["1.0.0+2"]), "release").(versionOverride := Some("1.0.3+4")), parse)
            == Outputs(4, OverridingProperty, "1.0.3", OverridingProperty)
  {
    var inputs := WithConventions(map[], Some("1.0.2+3"), Tags(["1.0.0+2"]), "release").(versionOverride := Some("1.0.3+4"));
    NoPrefix("1.0.3+4");
    TextTier("1.0.3+4", "", parse, OverridingProperty, Version(1, 0, 3, [], ["4"]));
    Derived103Plus4(OverridingProperty);
    FirstPresentOfFour(CodeTiers(inputs, parse));
    FirstPresentOfFour(NameTiers(inputs, parse));
  }

  /** VersionOverrideCli: the same override given as `-PversionOverride`. */
  lemma VersionOverrideCliStrategy(parse: Parser)
    requires parse("1.0.3+4") == Some(Version(1, 0, 3, [], ["4"]))
    ensures GetVersion(WithConventions(map["versionOverride" := "1.0.3+4"], Some("1.0.2+3"), Tags(["1.0.0+2"]), "release"), parse)
            == Outputs(4, OverridingProperty, "1.0.3", OverridingProperty)
  {
    var inputs := WithConventions(map["versionOverride" := "1.0.3+4"], Some("1.0.2+3"), Tags(["1.0.0+2"]), "release");
    NoPrefix("1.0.3+4");
    TextTier("1.0.3+4", "", parse, OverridingProperty, Version(1, 0, 3, [], ["4"]));
    Derived103Plus4(OverridingProperty);
    FirstPresentOfFour(CodeTiers(inputs, parse));
    FirstPresentOfFour(NameTiers(inputs, parse));
  }

  /** VersionCodeOverride: `versionCodeOverride` 5 replaces the code of
      `versionOverride` `1.0.3+4` and leaves its name. */
  lemma VersionCodeOverrideStrategy(parse: Parser)
    requires parse("1.0.3+4") == Some(Version(1, 0, 3, [], ["4"]))
    ensures GetVersion(WithConventions(map[], Some("1.0.2+3"), Tags(["1.0.0+2"]), "release")
                         .(versionOverride := Some("1.0.3+4"), versionCodeOverride := Some(5)), parse)
            == Outputs(5, OverridingProperty, "1.0.3", OverridingProperty)
  {
    var inputs := WithConventions(map[], Some("1.0.2+3"), Tags(["1.0.0+2"]), "release")
                    .(versionOverride := Some("1.0.3+4"), versionCodeOverride := Some(5));
    NoPrefix("1.0.3+4");
    TextTier("1.0.3+4", "", parse, OverridingProperty, Version(1, 0, 3, [], ["4"]));
    Derived103Plus4(OverridingProperty);
    FirstPresentOfFour(CodeTiers(inputs, parse));
    FirstPresentOfFour(NameTiers(inputs, parse));
  }

  /** VersionCodeOverrideCli: `-PversionCodeOverride=5` is read with
      `toIntOrNull` and then acts as above. */
  lemma VersionCodeOverrideCliStrategy(parse: Parser)
    requires parse("1.0.3+4") == Some(Version(1, 0, 3, [], ["4"]))
    ensures GetVersion(WithConventions(map["versionOverride" := "1.0.3+4", "versionCodeOverride" := "5"], Some("1.0.2+3"), Tags(["1.0.0+2"]), "release"), parse)
            == Outputs(5, OverridingProperty, "1.0.3", OverridingProperty)
  {
    var inputs := WithConventions(map["versionOverride" := "1.0.3+4", "versionCodeOverride" := "5"], Some("1.0.2+3"), Tags(["1.0.0+2"]), "release");
    assert DigitsValue("5") == 5;
    assert inputs.versionCodeOverride == Some(5);
    NoPrefix("1.0.3+4");
    TextTier("1.0.3+4", "", parse, OverridingProperty, Version(1, 0, 3, [], ["4"]));
    Derived103Plus4(OverridingProperty);
    FirstPresentOfFour(CodeTiers(inputs, parse));
    FirstPresentOfFour(NameTiers(inputs, parse));
  }

  /** VersionNameOverride: `versionNameOverride` 1.0.4 replaces the name of
      `versionOverride` `1.0.3+4` and leaves its code. */
  lemma VersionNameOverrideStrategy(parse: Parser)
    requires parse("1.0.3+4") == Some(Version(1, 0, 3, [], ["4"]))
    ensures GetVersion(WithConventions(map[], Some("1.0.2+3"), Tags(["1.0.0+2"]), "release")
                         .(versionOverride := Some("1.0.3+4"), versionNameOverride := Some("1.0.4")), parse)
            == Outputs(4, OverridingProperty, "1.0.4", OverridingProperty)
  {
    var inputs := WithConventions(map[], Some("1.0.2+3"), Tags(["1.0.0+2"]), "release")
                    .(versionOverride := Some("1.0.3+4"), versionNameOverride := Some("1.0.4"));
    NoPrefix("1.0.3+4");
    TextTier("1.0.3+4", "", parse, OverridingProperty, Version(1, 0, 3, [], ["4"]));
    Derived103Plus4(OverridingProperty);
    FirstPresentOfFour(CodeTiers(inputs, parse));
    FirstPresentOfFour(NameTiers(inputs, parse));
  }

  /** VersionNameOverrideCli: the same name given as
      `-PversionNameOverride`. */
  lemma VersionNameOverrideCliStrategy(parse: Parser)
    requires parse("1.0.3+4") == Some(Version(1, 0, 3, [], ["4"]))
    ensures GetVersion(WithConventions(map["versionOverride" := "1.0.3+4", "versionNameOverride" := "1.0.4"], Some("1.0.2+3"), Tags(["1.0.0+2"]), "release"), parse)
            == Outputs(4, OverridingProperty, "1.0.4", OverridingProperty)
  {
    var inputs := WithConventions(map["versionOverride" := "1.0.3+4", "versionNameOverride" := "1.0.4"], Some("1.0.2+3"), Tags(["1.0.0+2"]), "release");
    NoPrefix("1.0.3+4");
    TextTier("1.0.3+4", "", parse, OverridingProperty, Version(1, 0, 3, [], ["4"]));
    Derived103Plus4(OverridingProperty);
    FirstPresentOfFour(CodeTiers(inputs, parse));
    FirstPresentOfFour(NameTiers(inputs, parse));
  }

  /** NoVersionCodeInference: no code is written; the name is the
      fallback. */
  lemma NoVersionCodeInferenceStrategy(parse: Parser)
    ensures GetVersion(WithConventions(map[], None, NoRepository, "release").(versionCodeIsInferred := false), parse)
            == Success(TaskOutputs(None, Some(Sourced("1.0.0", Fallback))))
  {
    var inputs := WithConventions(map[], None, NoRepository, "release").(versionCodeIsInferred := false);
    FirstPresentOfFour(NameTiers(inputs, parse));
  }

  /** NoVersionNameInference: no name is written; the code is the
      fallback. */
  lemma NoVersionNameInferenceStrategy(parse: Parser)
    ensures GetVersion(WithConventions(map[], None, NoRepository, "release").(versionNameIsInferred := false), parse)
            == Success(TaskOutputs(Some(Sourced(1, Fallback)), None))
  {
    var inputs := WithConventions(map[], None, NoRepository, "release").(versionNameIsInferred := false);
    FirstPresentOfFour(CodeTiers(inputs, parse));
  }

  // The examples of the disabled tests.

  /** An override file without build metadata supplies the name while the
      code comes from the tag `1.0.0+1`. */
  lemma FileNameWithTagCode(parse: Parser)
    requires parse("1.0.0+1") == Some(Version(1, 0, 0, [], ["1"]))
    requires parse("1.2.3") == Some(Version(1, 2, 3, [], []))
    ensures GetVersion(WithConventions(map[], Some("1.2.3"), Tags(["1.0.0+1"]), "release"), parse)
            == Outputs(1, LatestGitTag, "1.2.3", OverridingFile)
  {
    var inputs := WithConventions(map[], Some("1.2.3"), Tags(["1.0.0+1"]), "release");
    NoPrefix("1.0.0+1");
    NoPrefix("1.2.3");
    TagTier(inputs, parse, "1.0.0+1", Version(1, 0, 0, [], ["1"]));
    Derived100Plus1(LatestGitTag);
    TextTier("1.2.3", "", parse, OverridingFile, Version(1, 2, 3, [], []));
    Derived123(OverridingFile);
    FirstPresentOfFour(CodeTiers(inputs, parse));
    FirstPresentOfFour(NameTiers(inputs, parse));
  }

  /** An override file whose build metadata is not a number likewise
      supplies only the name. */
  lemma FileNonNumericWithTagCode(parse: Parser)
    requires parse("1.0.0+1") == Some(Version(1, 0, 0, [], ["1"]))
    requires parse("1.2.3+abc") == Some(Version(1, 2, 3, [], ["abc"]))
    ensures GetVersion(WithConventions(map[], Some("1.2.3+abc"), Tags(["1.0.0+1"]), "release"), parse)
            == Outputs(1, LatestGitTag, "1.2.3", OverridingFile)
  {
    var inputs := WithConventions(map[], Some("1.2.3+abc"), Tags(["1.0.0+1"]), "release");
    NoPrefix("1.0.0+1");
    NoPrefix("1.2.3+abc");
    TagTier(inputs, parse, "1.0.0+1", Version(1, 0, 0, [], ["1"]));
    Derived100Plus1(LatestGitTag);
    TextTier("1.2.3+abc", "", parse, OverridingFile, Version(1, 2, 3, [], ["abc"]));
    Derived123PlusAbc(OverridingFile);
    FirstPresentOfFour(CodeTiers(inputs, parse));
    FirstPresentOfFour(NameTiers(inputs, parse));
  }

  /** A tag without build metadata gives the name; the code falls through to
      the fallback. */
  lemma TagWithoutMetadata(parse: Parser)
    requires parse("1.2.3") == Some(Version(1, 2, 3, [], []))
    ensures GetVersion(WithConventions(map[], None, Tags(["1.2.3"]), "release"), parse)
            == Outputs(1, Fallback, "1.2.3", LatestGitTag)
  {
    var inputs := WithConventions(map[], None, Tags(["1.2.3"]), "release");
    NoPrefix("1.2.3");
    TagTier(inputs, parse, "1.2.3", Version(1, 2, 3, [], []));
    Derived123(LatestGitTag);
    FirstPresentOfFour(CodeTiers(inputs, parse));
    FirstPresentOfFour(NameTiers(inputs, parse));
  }

  /** A tag whose build metadata is not a number gives the name; the code
      falls through to the fallback. */
  lemma TagWithNonNumericMetadata(parse: Parser)
    requires parse("1.2.3+abc") == Some(Version(1, 2, 3, [], ["abc"]))
    ensures GetVersion(WithConventions(map[], None, Tags(["1.2.3+abc"]), "release"), parse)
            == Outputs(1, Fallback, "1.2.3", LatestGitTag)
  {
    var inputs := WithConventions(map[], None, Tags(["1.2.3+abc"]), "release");
    NoPrefix("1.2.3+abc");
    TagTier(inputs, parse, "1.2.3+abc", Version(1, 2, 3, [], ["abc"]));
    Derived123PlusAbc(LatestGitTag);
    FirstPresentOfFour(CodeTiers(inputs, parse));
    FirstPresentOfFour(NameTiers(inputs, parse));
  }

  /** A debug build adds one to the code of the tag `1.2.3+4`. */
  lemma DebugBuildIncrementsTagCode(parse: Parser)
    requires parse("1.2.3+4") == Some(Version(1, 2, 3, [], ["4"]))
    ensures GetVersion(WithConventions(map[], None, Tags(["1.2.3+4"]), "debug"), parse)
            == Outputs(5, LatestGitTag, "1.2.3", LatestGitTag)
  {
    var inputs := WithConventions(map[], None, Tags(["1.2.3+4"]), "debug");
    NoPrefix("1.2.3+4");
    TagTier(inputs, parse, "1.2.3+4", Version(1, 2, 3, [], ["4"]));
    Derived123Plus4(LatestGitTag);
    FirstPresentOfFour(CodeTiers(inputs, parse));
    FirstPresentOfFour(NameTiers(inputs, parse));
  }

  /** With `releaseBuildTypes` set to {"staging"}, a staging build keeps the
      tag's code. */
  lemma CustomReleaseBuildTypes(parse: Parser)
    requires parse("1.2.3+4") == Some(Version(1, 2, 3, [], ["4"]))
    ensures GetVersion(WithConventions(map[], None, Tags(["1.2.3+4"]), "staging").(releaseBuildTypes := {"staging"}), parse)
            == Outputs(4, LatestGitTag, "1.2.3", LatestGitTag)
  {
    var inputs := WithConventions(map[], None, Tags(["1.2.3+4"]), "staging").(releaseBuildTypes := {"staging"});
    NoPrefix("1.2.3+4");
    TagTier(inputs, parse, "1.2.3+4", Version(1, 2, 3, [], ["4"]));
    Derived123Plus4(LatestGitTag);
    FirstPresentOfFour(CodeTiers(inputs, parse));
    FirstPresentOfFour(NameTiers(inputs, parse));
  }

  /** Tags `1.0.0+1` and `1.0.0+2` have equal precedence, since build
      metadata does not take part in it; `maxOrNull` keeps the first one, so
      the code is 1. */
  lemma EqualPrecedenceTagsKeepFirst(parse: Parser)
    requires parse("1.0.0+1") == Some(Version(1, 0, 0, [], ["1"]))
    requires parse("1.0.0+2") == Some(Version(1, 0, 0, [], ["2"]))
    ensures GetVersion(WithConventions(map[], None, Tags(["1.0.0+1", "1.0.0+2"]), "release"), parse)
            == Outputs(1, LatestGitTag, "1.0.0", LatestGitTag)
  {
    var inputs := WithConventions(map[], None, Tags(["1.0.0+1", "1.0.0+2"]), "release");
    var first, second := Version(1, 0, 0, [], ["1"]), Version(1, 0, 0, [], ["2"]);
    NoPrefix("1.0.0+1");
    NoPrefix("1.0.0+2");
    assert FilterByPrefix(["1.0.0+1", "1.0.0+2"], "") == ["1.0.0+1", "1.0.0+2"];
    assert ParseAll(["1.0.0+1", "1.0.0+2"], "", parse) == [first, second];
    assert MaxFrom(first, [second]) == MaxFrom(Keep(first, second), []) == first;
    Derived100Plus1(LatestGitTag);
    FirstPresentOfFour(CodeTiers(inputs, parse));
    FirstPresentOfFour(NameTiers(inputs, parse));
  }

  /** Tags `v1.2.3+4` and `p1.2.4+5` without a prefix: neither parses, so
      the fallback is used. */
  lemma UnprefixedTagsAreNotVersions(parse: Parser)
    requires parse("v1.2.3+4") == None && parse("p1.2.4+5") == None
    ensures GetVersion(WithConventions(map[], None, Tags(["p1.2.4+5", "v1.2.3+4"]), "release"), parse)
            == Outputs(1, Fallback, "1.0.0", Fallback)
  {
    var inputs := WithConventions(map[], None, Tags(["p1.2.4+5", "v1.2.3+4"]), "release");
    NoPrefix("p1.2.4+5");
    NoPrefix("v1.2.3+4");
    assert FilterByPrefix(["p1.2.4+5", "v1.2.3+4"], "") == ["p1.2.4+5", "v1.2.3+4"];
    assert ParseAll(["p1.2.4+5", "v1.2.3+4"], "", parse) == [];
    FirstPresentOfFour(CodeTiers(inputs, parse));
    FirstPresentOfFour(NameTiers(inputs, parse));
  }

  /** The same tags with the prefix `v`: `v1.2.3+4` is selected. */
  lemma PrefixSelectsTags(parse: Parser)
    requires parse("1.2.3+4") == Some(Version(1, 2, 3, [], ["4"]))
    ensures GetVersion(WithConventions(map[], None, Tags(["p1.2.4+5", "v1.2.3+4"]), "release").(versionPrefix := "v"), parse)
            == Outputs(4, LatestGitTag, "1.2.3", LatestGitTag)
  {
    var inputs := WithConventions(map[], None, Tags(["p1.2.4+5", "v1.2.3+4"]), "release").(versionPrefix := "v");
    assert "p1.2.4+5"[0] != 'v' && "v1.2.3+4"[..1] == "v";
    assert FilterByPrefix(["p1.2.4+5", "v1.2.3+4"], "v") == ["v1.2.3+4"];
    assert RemovePrefix("v1.2.3+4", "v") == "1.2.3+4";
    TagTier(inputs, parse, "v1.2.3+4", Version(1, 2, 3, [], ["4"]));
    Derived123Plus4(LatestGitTag);
    FirstPresentOfFour(CodeTiers(inputs, parse));
    FirstPresentOfFour(NameTiers(inputs, parse));
  }

  // The first results of the disabled tests that change one setting at a
  // time: the repository is tagged `1.2.3+4`.

  /** A release build takes code 4 and name "1.2.3" from the tag. */
  lemma ReleaseBuildKeepsTagCode(parse: Parser)
    requires parse("1.2.3+4") == Some(Version(1, 2, 3, [], ["4"]))
    ensures GetVersion(WithConventions(map[], None, Tags(["1.2.3+4"]), "release"), parse)
            == Outputs(4, LatestGitTag, "1.2.3", LatestGitTag)
  {
    var inputs := WithConventions(map[], None, Tags(["1.2.3+4"]), "release");
    NoPrefix("1.2.3+4");
    TagTier(inputs, parse, "1.2.3+4", Version(1, 2, 3, [], ["4"]));
    Derived123Plus4(LatestGitTag);
    FirstPresentOfFour(CodeTiers(inputs, parse));
    FirstPresentOfFour(NameTiers(inputs, parse));
  }

  /** With code inference off, no code is written and the name still comes
      from the tag. */
  lemma NoCodeInferenceKeepsTagName(parse: Parser)
    requires parse("1.2.3+4") == Some(Version(1, 2, 3, [], ["4"]))
    ensures GetVersion(WithConventions(map[], None, Tags(["1.2.3+4"]), "release").(versionCodeIsInferred := false), parse)
            == Success(TaskOutputs(None, Some(Sourced("1.2.3", LatestGitTag))))
  {
    var inputs := WithConventions(map[], None, Tags(["1.2.3+4"]), "release").(versionCodeIsInferred := false);
    NoPrefix("1.2.3+4");
    TagTier(inputs, parse, "1.2.3+4", Version(1, 2, 3, [], ["4"]));
    Derived123Plus4(LatestGitTag);
    FirstPresentOfFour(NameTiers(inputs, parse));
  }

  /** With name inference off, no name is written and the code still comes
      from the tag. */
  lemma NoNameInferenceKeepsTagCode(parse: Parser)
    requires parse("1.2.3+4") == Some(Version(1, 2, 3, [], ["4"]))
    ensures GetVersion(WithConventions(map[], None, Tags(["1.2.3+4"]), "release").(versionNameIsInferred := false), parse)
            == Success(TaskOutputs(Some(Sourced(4, LatestGitTag)), None))
  {
    var inputs := WithConventions(map[], None, Tags(["1.2.3+4"]), "release").(versionNameIsInferred := false);
    NoPrefix("1.2.3+4");
    TagTier(inputs, parse, "1.2.3+4", Version(1, 2, 3, [], ["4"]));
    Derived123Plus4(LatestGitTag);
    FirstPresentOfFour(CodeTiers(inputs, parse));
  }

  /** `-PversionOverride=1.2.4+5` replaces both fields of the tag. */
  lemma VersionOverrideBeatsTag(parse: Parser)
    requires parse("1.2.4+5") == Some(Version(1, 2, 4, [], ["5"]))
    ensures GetVersion(WithConventions(map["versionOverride" := "1.2.4+5"], None, Tags(["1.2.3+4"]), "release"), parse)
            == Outputs(5, OverridingProperty, "1.2.4", OverridingProperty)
  {
    var inputs := WithConventions(map["versionOverride" := "1.2.4+5"], None, Tags(["1.2.3+4"]), "release");
    NoPrefix("1.2.4+5");
    TextTier("1.2.4+5", "", parse, OverridingProperty, Version(1, 2, 4, [], ["5"]));
    Derived124Plus5(OverridingProperty);
    FirstPresentOfFour(CodeTiers(inputs, parse));
    FirstPresentOfFour(NameTiers(inputs, parse));
  }

  /** `-PversionCodeOverride=5` alone replaces the code; the name still
      comes from the tag. */
  lemma CodeOverrideAloneKeepsTagName(parse: Parser)
    requires parse("1.2.3+4") == Some(Version(1, 2, 3, [], ["4"]))
    ensures GetVersion(WithConventions(map["versionCodeOverride" := "5"], None, Tags(["1.2.3+4"]), "release"), parse)
            == Outputs(5, OverridingProperty, "1.2.3", LatestGitTag)
  {
    var inputs := WithConventions(map["versionCodeOverride" := "5"], None, Tags(["1.2.3+4"]), "release");
    assert DigitsValue("5") == 5;
    assert inputs.versionCodeOverride == Some(5);
    NoPrefix("1.2.3+4");
    TagTier(inputs, parse, "1.2.3+4", Version(1, 2, 3, [], ["4"]));
    Derived123Plus4(LatestGitTag);
    FirstPresentOfFour(CodeTiers(inputs, parse));
    FirstPresentOfFour(NameTiers(inputs, parse));
  }

  /** `-PversionNameOverride=1.2.4` alone replaces the name; the code still
      comes from the tag. */
  lemma NameOverrideAloneKeepsTagCode(parse: Parser)
    requires parse("1.2.3+4") == Some(Version(1, 2, 3, [], ["4"]))
    ensures GetVersion(WithConventions(map["versionNameOverride" := "1.2.4"], None, Tags(["1.2.3+4"]), "release"), parse)
            == Outputs(4, LatestGitTag, "1.2.4", OverridingProperty)
  {
    var inputs := WithConventions(map["versionNameOverride" := "1.2.4"], None, Tags(["1.2.3+4"]), "release");
    NoPrefix("1.2.3+4");
    TagTier(inputs, parse, "1.2.3+4", Version(1, 2, 3, [], ["4"]));
    Derived123Plus4(LatestGitTag);
    FirstPresentOfFour(CodeTiers(inputs, parse));
    FirstPresentOfFour(NameTiers(inputs, parse));
  }

  /** An override file `1.2.4+5` written next to the tag replaces both
      fields. */
  lemma OverrideFileBeatsTag(parse: Parser)
    requires parse("1.2.4+5") == Some(Version(1, 2, 4, [], ["5"]))
    ensures GetVersion(WithConventions(map[], Some("1.2.4+5"), Tags(["1.2.3+4"]), "release"), parse)
            == Outputs(5, OverridingFile, "1.2.4", OverridingFile)
  {
    var inputs := WithConventions(map[], Some("1.2.4+5"), Tags(["1.2.3+4"]), "release");
    NoPrefix("1.2.4+5");
    TextTier("1.2.4+5", "", parse, OverridingFile, Version(1, 2, 4, [], ["5"]));
    Derived124Plus5(OverridingFile);
    FirstPresentOfFour(CodeTiers(inputs, parse));
    FirstPresentOfFour(NameTiers(inputs, parse));
  }

  /** A newer tag `1.2.4+5` has strictly greater precedence than `1.2.3+4`,
      so `maxOrNull` selects it. */
  lemma NewerTagIsSelected(parse: Parser)
    requires parse("1.2.3+4") == Some(Version(1, 2, 3, [], ["4"]))
    requires parse("1.2.4+5") == Some(Version(1, 2, 4, [], ["5"]))
    ensures GetVersion(WithConventions(map[], None, Tags(["1.2.3+4", "1.2.4+5"]), "release"), parse)
            == Outputs(5, LatestGitTag, "1.2.4", LatestGitTag)
  {
    var inputs := WithConventions(map[], None, Tags(["1.2.3+4", "1.2.4+5"]), "release");
    var older, newer := Version(1, 2, 3, [], ["4"]), Version(1, 2, 4, [], ["5"]);
    NoPrefix("1.2.3+4");
    NoPrefix("1.2.4+5");
    assert FilterByPrefix(["1.2.3+4", "1.2.4+5"], "") == ["1.2.3+4", "1.2.4+5"];
    assert ParseAll(["1.2.3+4", "1.2.4+5"], "", parse) == [older, newer];
    assert MaxFrom(older, [newer]) == MaxFrom(Keep(older, newer), []) == newer;
    Derived124Plus5(LatestGitTag);
    FirstPresentOfFour(CodeTiers(inputs, parse));
    FirstPresentOfFour(NameTiers(inputs, parse));
  }

  /** `fallbackVersionCode` 2 with nothing else configured gives code 2. */
  lemma FallbackVersionCodeSetting(parse: Parser)
    ensures GetVersion(WithConventions(map[], None, NoRepository, "release").(fallbackVersionCode := 2), parse)
            == Outputs(2, Fallback, "1.0.0", Fallback)
  {
    var inputs := WithConventions(map[], None, NoRepository, "release").(fallbackVersionCode := 2);
    FirstPresentOfFour(CodeTiers(inputs, parse));
    FirstPresentOfFour(NameTiers(inputs, parse));
  }

  /** `fallbackVersionName` "2.0.0" with nothing else configured gives that
      name. */
  lemma FallbackVersionNameSetting(parse: Parser)
    ensures GetVersion(WithConventions(map[], None, NoRepository, "release").(fallbackVersionName := "2.0.0"), parse)
            == Outputs(1, Fallback, "2.0.0", Fallback)
  {
    var inputs := WithConventions(map[], None, NoRepository, "release").(fallbackVersionName := "2.0.0");
    FirstPresentOfFour(CodeTiers(inputs, parse));
    FirstPresentOfFour(NameTiers(inputs, parse));
  }

  /** A staging build outside the default release build types adds one to
      the tag's code; once `releaseBuildTypes` names it, the tag's code is
      kept. */
  lemma StagingOutsideReleaseTypes(parse: Parser)
    requires parse("1.2.3+4") == Some(Version(1, 2, 3, [], ["4"]))
    ensures GetVersion(WithConventions(map[], None, Tags(["1.2.3+4"]), "staging"), parse)
            == Outputs(5, LatestGitTag, "1.2.3", LatestGitTag)
    ensures GetVersion(WithConventions(map[], None, Tags(["1.2.3+4"]), "staging").(releaseBuildTypes := {"staging"}), parse)
            == Outputs(4, LatestGitTag, "1.2.3", LatestGitTag)
  {
    CustomReleaseBuildTypes(parse);
    var inputs := WithConventions(map[], None, Tags(["1.2.3+4"]), "staging");
    NoPrefix("1.2.3+4");
    TagTier(inputs, parse, "1.2.3+4", Version(1, 2, 3, [], ["4"]));
    Derived123Plus4(LatestGitTag);
    FirstPresentOfFour(CodeTiers(inputs, parse));
    FirstPresentOfFour(NameTiers(inputs, parse));
  }
}
