/** What `getVersion` guarantees, stated over all inputs: the tier
    precedence of each field, the independence of the two fields, the
    property-tier rule, the build-type adjustment and the derivation of
    values from the latest tag. */
module ResolutionProperties {
  import opened Wrappers
  import opened KotlinText
  import opened SemVer
  import opened TagSelection
  import opened ReleaseTagVersion

  /** The version code comes from the first tier that has one, in the order
      OverridingProperty, OverridingFile, LatestGitTag, Fallback; no lower
      tier is used. */
  lemma CodePrecedence(inputs: TaskInputs, parse: Parser, k: nat)
    requires k < 4 && CodeTiers(inputs, parse)[k].Some?
    requires forall j :: 0 <= j < k ==> CodeTiers(inputs, parse)[j].None?
    ensures ResolveCode(inputs, parse) == Success(CodeTiers(inputs, parse)[k].value)
    ensures ResolveCode(inputs, parse).value.source == TierSources[k]
    ensures forall j :: k < j < 4 ==> ResolveCode(inputs, parse).value.source != TierSources[j]
  {
    FirstPresentAt(CodeTiers(inputs, parse), k);
  }

  /** The version name resolves through the same tier order on its own. */
  lemma NamePrecedence(inputs: TaskInputs, parse: Parser, k: nat)
    requires k < 4 && NameTiers(inputs, parse)[k].Some?
    requires forall j :: 0 <= j < k ==> NameTiers(inputs, parse)[j].None?
    ensures ResolveName(inputs, parse) == Success(NameTiers(inputs, parse)[k].value)
    ensures ResolveName(inputs, parse).value.source == TierSources[k]
    ensures forall j :: k < j < 4 ==> ResolveName(inputs, parse).value.source != TierSources[j]
  {
    FirstPresentAt(NameTiers(inputs, parse), k);
  }

  /** With both fields inferred, the task writes the first present code tier
      adjusted for the build type, and the first present name tier. */
  lemma GetVersionFromTiers(inputs: TaskInputs, parse: Parser, codeTier: nat, nameTier: nat)
    requires inputs.versionCodeIsInferred && inputs.versionNameIsInferred
    requires codeTier < 4 && CodeTiers(inputs, parse)[codeTier].Some?
    requires forall j :: 0 <= j < codeTier ==> CodeTiers(inputs, parse)[j].None?
    requires nameTier < 4 && NameTiers(inputs, parse)[nameTier].Some?
    requires forall j :: 0 <= j < nameTier ==> NameTiers(inputs, parse)[j].None?
    ensures var code := CodeTiers(inputs, parse)[codeTier].value;
            GetVersion(inputs, parse) == Success(TaskOutputs(
              Some(Sourced(FinalVersionCode(code.value, code.source, inputs.buildType, inputs.releaseBuildTypes), TierSources[codeTier])),
              Some(Sourced(NameTiers(inputs, parse)[nameTier].value.value, TierSources[nameTier]))))
  {
    FirstPresentAt(CodeTiers(inputs, parse), codeTier);
    FirstPresentAt(NameTiers(inputs, parse), nameTier);
  }

  /** The task writes the resolved name unchanged, and the resolved code
      adjusted for the build type: kept for a release build type, one more
      for a code from the latest tag in any other build type, kept for every
      other source. */
  lemma BuildTypeAdjustment(inputs: TaskInputs, parse: Parser)
    ensures inputs.versionNameIsInferred ==>
              GetVersion(inputs, parse).value.versionName == Some(ResolveName(inputs, parse).value)
    ensures inputs.versionCodeIsInferred ==>
              GetVersion(inputs, parse).value.versionCode.value.source == ResolveCode(inputs, parse).value.source
    ensures inputs.versionCodeIsInferred && inputs.buildType in inputs.releaseBuildTypes ==>
              GetVersion(inputs, parse).value.versionCode.value.value == ResolveCode(inputs, parse).value.value
    ensures inputs.versionCodeIsInferred && inputs.buildType !in inputs.releaseBuildTypes
            && ResolveCode(inputs, parse).value.source == LatestGitTag ==>
              GetVersion(inputs, parse).value.versionCode.value.value == PlusOne(ResolveCode(inputs, parse).value.value)
    ensures inputs.versionCodeIsInferred && ResolveCode(inputs, parse).value.source != LatestGitTag ==>
              GetVersion(inputs, parse).value.versionCode.value.value == ResolveCode(inputs, parse).value.value
  {
  }

  /** A build type outside the release build types gets the release code plus
      one when the code comes from the latest tag, and the release code
      otherwise; its name and sources are those of the release build. */
  lemma DebugFollowsRelease(inputs: TaskInputs, parse: Parser, debugType: string)
    requires inputs.versionCodeIsInferred
    requires inputs.buildType in inputs.releaseBuildTypes && debugType !in inputs.releaseBuildTypes
    ensures var release := GetVersion(inputs, parse).value.versionCode.value;
            var debug := GetVersion(inputs.(buildType := debugType), parse).value.versionCode.value;
            && debug.source == release.source
            && (release.source == LatestGitTag ==> debug.value == PlusOne(release.value))
            && (release.source == LatestGitTag && release.value < INT_MAX ==> debug.value > release.value)
            && (release.source != LatestGitTag ==> debug.value == release.value)
    ensures GetVersion(inputs.(buildType := debugType), parse).value.versionName == GetVersion(inputs, parse).value.versionName
  {
    var debugInputs := inputs.(buildType := debugType);
    assert CodeTiers(debugInputs, parse) == CodeTiers(inputs, parse);
    assert NameTiers(debugInputs, parse) == NameTiers(inputs, parse);
  }

  /** Within the property tier, `versionCodeOverride` beats the code derived
      from `versionOverride`, and the tier supplies no code only when both
      are absent. */
  lemma FieldCodeOverrideWins(inputs: TaskInputs, parse: Parser)
    ensures inputs.versionCodeOverride.Some? ==>
              ResolveCode(inputs, parse).value == Sourced(inputs.versionCodeOverride.value, OverridingProperty)
    ensures inputs.versionCodeOverride.None? && CodeOf(OverridingInfo(inputs, parse)).Some? ==>
              ResolveCode(inputs, parse).value == Sourced(CodeOf(OverridingInfo(inputs, parse)).value, OverridingProperty)
    ensures ResolveCode(inputs, parse).value.source == OverridingProperty
            <==> inputs.versionCodeOverride.Some? || CodeOf(OverridingInfo(inputs, parse)).Some?
  {
    FirstPresentOfFour(CodeTiers(inputs, parse));
  }

  /** Within the property tier, `versionNameOverride` beats the name derived
      from `versionOverride`, and the tier supplies no name only when both
      are absent. */
  lemma FieldNameOverrideWins(inputs: TaskInputs, parse: Parser)
    ensures inputs.versionNameOverride.Some? ==>
              ResolveName(inputs, parse).value == Sourced(inputs.versionNameOverride.value, OverridingProperty)
    ensures inputs.versionNameOverride.None? && NameOf(OverridingInfo(inputs, parse)).Some? ==>
              ResolveName(inputs, parse).value == Sourced(NameOf(OverridingInfo(inputs, parse)).value, OverridingProperty)
    ensures ResolveName(inputs, parse).value.source == OverridingProperty
            <==> inputs.versionNameOverride.Some? || NameOf(OverridingInfo(inputs, parse)).Some?
  {
    FirstPresentOfFour(NameTiers(inputs, parse));
  }

  /** The three tiers above the fallback read only the override text, the
      override file, the repository and the prefix. */
  lemma SharedTiers(inputs: TaskInputs, other: TaskInputs, parse: Parser)
    requires inputs.versionOverrideFileText == other.versionOverrideFileText
    requires inputs.git == other.git && inputs.versionOverride == other.versionOverride
    requires inputs.versionPrefix == other.versionPrefix
    ensures OverridingInfo(inputs, parse) == OverridingInfo(other, parse)
    ensures OverridingFileInfo(inputs, parse) == OverridingFileInfo(other, parse)
    ensures LatestGitReleaseInfo(inputs, parse) == LatestGitReleaseInfo(other, parse)
  {
  }

  /** The written name depends on none of the code's settings
      (`versionCodeIsInferred`, `versionCodeOverride`, `fallbackVersionCode`,
      the build type and `releaseBuildTypes`). */
  lemma NameIgnoresCodeSettings(inputs: TaskInputs, other: TaskInputs, parse: Parser)
    requires inputs.versionOverrideFileText == other.versionOverrideFileText
    requires inputs.git == other.git && inputs.versionOverride == other.versionOverride
    requires inputs.versionPrefix == other.versionPrefix
    requires inputs.versionNameIsInferred == other.versionNameIsInferred
    requires inputs.versionNameOverride == other.versionNameOverride
    requires inputs.fallbackVersionName == other.fallbackVersionName
    ensures GetVersion(inputs, parse).value.versionName == GetVersion(other, parse).value.versionName
  {
    SharedTiers(inputs, other, parse);
    FirstPresentOfFour(NameTiers(inputs, parse));
    FirstPresentOfFour(NameTiers(other, parse));
  }

  /** The written code depends on none of the name's settings
      (`versionNameIsInferred`, `versionNameOverride`,
      `fallbackVersionName`). */
  lemma CodeIgnoresNameSettings(inputs: TaskInputs, other: TaskInputs, parse: Parser)
    requires inputs.versionOverrideFileText == other.versionOverrideFileText
    requires inputs.git == other.git && inputs.versionOverride == other.versionOverride
    requires inputs.versionPrefix == other.versionPrefix
    requires inputs.versionCodeIsInferred == other.versionCodeIsInferred
    requires inputs.versionCodeOverride == other.versionCodeOverride
    requires inputs.fallbackVersionCode == other.fallbackVersionCode
    requires inputs.buildType == other.buildType && inputs.releaseBuildTypes == other.releaseBuildTypes
    ensures GetVersion(inputs, parse).value.versionCode == GetVersion(other, parse).value.versionCode
  {
    SharedTiers(inputs, other, parse);
    FirstPresentOfFour(CodeTiers(inputs, parse));
    FirstPresentOfFour(CodeTiers(other, parse));
  }

  /** Without the git directories, or when `git tag -l` fails, no value comes
      from the latest tag; the task still succeeds. */
  lemma MissingGitDataGivesNoTag(inputs: TaskInputs, parse: Parser)
    requires !inputs.git.gitDirExists || !inputs.git.tagsDirExists || inputs.git.exitCode != 0
    ensures ResolveCode(inputs, parse).value.source != LatestGitTag
    ensures ResolveName(inputs, parse).value.source != LatestGitTag
  {
    FirstPresentOfFour(CodeTiers(inputs, parse));
    FirstPresentOfFour(NameTiers(inputs, parse));
  }

  /** A code or name from the LatestGitTag tier is derived from the selected
      tag: the code is its single build-metadata identifier read as an `Int`,
      the name its text without the build metadata. */
  lemma TagTierDerivesFromLatestTag(inputs: TaskInputs, parse: Parser)
    ensures ResolveCode(inputs, parse).value.source == LatestGitTag ==>
              var tag := LatestGitReleaseTag(inputs.git, inputs.versionPrefix, parse);
              && tag.Some? && |tag.value.build| == 1
              && ToIntOrNull(tag.value.build[0]) == Some(ResolveCode(inputs, parse).value.value)
    ensures ResolveName(inputs, parse).value.source == LatestGitTag ==>
              var tag := LatestGitReleaseTag(inputs.git, inputs.versionPrefix, parse);
              tag.Some? && ResolveName(inputs, parse).value.value == ToString(WithoutBuild(tag.value))
  {
    FirstPresentOfFour(CodeTiers(inputs, parse));
    FirstPresentOfFour(NameTiers(inputs, parse));
  }

  /** A code or name from the OverridingFile tier is derived from the file's
      text exactly as read: the prefix is removed only when the text starts
      with it, nothing is trimmed, and what is left is parsed. The code is
      the single build-metadata identifier read as an `Int`, the name the
      version's text without the build metadata. */
  lemma FileTierDerivesFromOverrideFile(inputs: TaskInputs, parse: Parser)
    ensures ResolveCode(inputs, parse).value.source == OverridingFile ==>
              var text := inputs.versionOverrideFileText;
              && text.Some? && parse(RemovePrefix(text.value, inputs.versionPrefix)).Some?
              && var v := parse(RemovePrefix(text.value, inputs.versionPrefix)).value;
                 |v.build| == 1 && ToIntOrNull(v.build[0]) == Some(ResolveCode(inputs, parse).value.value)
    ensures ResolveName(inputs, parse).value.source == OverridingFile ==>
              var text := inputs.versionOverrideFileText;
              && text.Some? && parse(RemovePrefix(text.value, inputs.versionPrefix)).Some?
              && ResolveName(inputs, parse).value.value
                 == ToString(WithoutBuild(parse(RemovePrefix(text.value, inputs.versionPrefix)).value))
  {
    FirstPresentOfFour(CodeTiers(inputs, parse));
    FirstPresentOfFour(NameTiers(inputs, parse));
  }

  /** Without a field override, a code or name from the OverridingProperty
      tier is derived from the `versionOverride` text in the same way: the
      prefix removed when present, the rest parsed, the code read from the
      single build-metadata identifier, the name the text without it. */
  lemma PropertyTierDerivesFromVersionOverride(inputs: TaskInputs, parse: Parser)
    ensures ResolveCode(inputs, parse).value.source == OverridingProperty && inputs.versionCodeOverride.None? ==>
              var text := inputs.versionOverride;
              && text.Some? && parse(RemovePrefix(text.value, inputs.versionPrefix)).Some?
              && var v := parse(RemovePrefix(text.value, inputs.versionPrefix)).value;
                 |v.build| == 1 && ToIntOrNull(v.build[0]) == Some(ResolveCode(inputs, parse).value.value)
    ensures ResolveName(inputs, parse).value.source == OverridingProperty && inputs.versionNameOverride.None? ==>
              var text := inputs.versionOverride;
              && text.Some? && parse(RemovePrefix(text.value, inputs.versionPrefix)).Some?
              && ResolveName(inputs, parse).value.value
                 == ToString(WithoutBuild(parse(RemovePrefix(text.value, inputs.versionPrefix)).value))
  {
    FirstPresentOfFour(CodeTiers(inputs, parse));
    FirstPresentOfFour(NameTiers(inputs, parse));
  }

  /** Conversely, a `versionOverride` that parses once the prefix is removed
      supplies its derived code unless `versionCodeOverride` is set, and its
      derived name unless `versionNameOverride` is set. */
  lemma VersionOverrideSupplies(inputs: TaskInputs, parse: Parser, v: SemVersion)
    requires inputs.versionOverride.Some?
    requires parse(RemovePrefix(inputs.versionOverride.value, inputs.versionPrefix)) == Some(v)
    ensures inputs.versionCodeOverride.None? && |v.build| == 1 && ToIntOrNull(v.build[0]).Some? ==>
              ResolveCode(inputs, parse).value == Sourced(ToIntOrNull(v.build[0]).value, OverridingProperty)
    ensures inputs.versionNameOverride.None? ==>
              ResolveName(inputs, parse).value == Sourced(ToString(WithoutBuild(v)), OverridingProperty)
  {
    FirstPresentOfFour(CodeTiers(inputs, parse));
    FirstPresentOfFour(NameTiers(inputs, parse));
  }

  /** An override file whose text, as read and with the prefix removed,
      parses supplies its derived code and name whenever the property tier
      has none. */
  lemma OverrideFileSupplies(inputs: TaskInputs, parse: Parser, v: SemVersion)
    requires inputs.versionOverrideFileText.Some?
    requires parse(RemovePrefix(inputs.versionOverrideFileText.value, inputs.versionPrefix)) == Some(v)
    ensures OverridingPropertiesInfo(inputs, parse).code.None? && |v.build| == 1 && ToIntOrNull(v.build[0]).Some? ==>
              ResolveCode(inputs, parse).value == Sourced(ToIntOrNull(v.build[0]).value, OverridingFile)
    ensures OverridingPropertiesInfo(inputs, parse).name.None? ==>
              ResolveName(inputs, parse).value == Sourced(ToString(WithoutBuild(v)), OverridingFile)
  {
    FirstPresentOfFour(CodeTiers(inputs, parse));
    FirstPresentOfFour(NameTiers(inputs, parse));
  }

  /** The selected latest tag supplies its derived code and name whenever
      neither override tier has one. */
  lemma LatestTagSupplies(inputs: TaskInputs, parse: Parser, t: SemVersion)
    requires LatestGitReleaseTag(inputs.git, inputs.versionPrefix, parse) == Some(t)
    ensures && OverridingPropertiesInfo(inputs, parse).code.None?
            && CodeOf(OverridingFileInfo(inputs, parse)).None?
            && |t.build| == 1 && ToIntOrNull(t.build[0]).Some? ==>
              ResolveCode(inputs, parse).value == Sourced(ToIntOrNull(t.build[0]).value, LatestGitTag)
    ensures && OverridingPropertiesInfo(inputs, parse).name.None?
            && NameOf(OverridingFileInfo(inputs, parse)).None? ==>
              ResolveName(inputs, parse).value == Sourced(ToString(WithoutBuild(t)), LatestGitTag)
  {
    FirstPresentOfFour(CodeTiers(inputs, parse));
    FirstPresentOfFour(NameTiers(inputs, parse));
  }
}
