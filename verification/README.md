# release-tag-version: the version resolution, modelled in Dafny

The release-tag-version Gradle plugin gives an Android build its
`versionCode` and `versionName`. Its task, `ReleaseTagVersionTask.getVersion`,
looks at four tiers of candidates, highest precedence first:

1. the property overrides: `versionOverride`, `versionCodeOverride` and
   `versionNameOverride`;
2. the override file;
3. the latest release tag of the git repository;
4. the fallback code and name.

The task resolves the code and the name separately. Each takes the first
tier that supplies it. For a build type that is not a release build type,
the task then adds one to a code taken from the latest tag. The task writes
the code to one output file and the name to another.

A tier that is a version string is handled the same way each time. The task
strips the configured prefix and parses the rest as a Semantic Versioning
2.0.0 version. The code is then the build metadata read as an `Int`, and the
name is the version's text without its `+metadata`
(`extractVersionInfoFromSemVer`). The latest tag is selected from the output
of `git tag -l` (`getLatestGitReleaseTag`). The task keeps the lines that
start with the prefix, strips the prefix, parses what is left, and takes
`maxOrNull` by semantic-version precedence.

The model is written as functions with lemmas about them:

- `wrappers.dfy`: `Option` and `Result`.
- `kotlin_text.dfy` (`KotlinText`): the Kotlin operations the task relies on.
  These are `removePrefix`, `removeSuffix`, `toIntOrNull` and `Int.toString`,
  and `Int` arithmetic with 32-bit wrap-around.
- `semver.dfy` (`SemVer`): versions, their rendering with `+build` last, and
  precedence as section 11 of Semantic Versioning 2.0.0 defines it. Build
  metadata is left out of precedence, as section 10 says.
- `tag_selection.dfy` (`TagSelection`): `getLatestGitReleaseTag`.
- `release_tag_version.dfy` (`ReleaseTagVersion`): `VersionSource`,
  `VersionInfo`, `extractVersionInfoFromSemVer`, the tiers, the two elvis
  chains, the build-type adjustment and `getVersion`.
  - The task's inputs are one value, `TaskInputs`.
  - Its outputs are one value, `TaskOutputs`. This holds the code and the name
    it writes, each with its source, or `None` where it deletes the file.
  - `WithConventions` fills the inputs with the plugin's conventions.
- `resolution_properties.dfy` (`ResolutionProperties`): what `getVersion`
  guarantees for all inputs.
- `resolution_scenarios.dfy` (`ResolutionScenarios`): worked examples with
  the plugin's conventions. These cover every strategy of the plugin's test
  suite and every version outcome its commented-out tests assert, except
  the one about a new commit (ReleaseTagVersionPluginTest.kt:588-605),
  which concerns caching only.

Some behaviour follows the code rather than a tidier reading of the
plugin's intent:

- The override file's text is parsed as read, not trimmed
  (`ReleaseTagVersionTask.kt:122`).
- The property tier is one tier. A field override and the value derived
  from `versionOverride` are merged in it, and both are labelled
  OverridingProperty.
- Two tags may have equal precedence while their codes differ, for example
  `1.0.0+1` and `1.0.0+2`, because build metadata takes no part in
  precedence. `maxOrNull` then keeps the first tag printed
  (`EqualPrecedenceTagsKeepFirst`).
- `versionCode + 1` wraps from `Int.MAX_VALUE` to `Int.MIN_VALUE`.
- A version without build metadata has the name the code computes by
  removing the suffix `"+null"`. This leaves the text unchanged, because a
  valid version's text never ends that way (`RemoveBuildSuffix`).

The semantic-version parser belongs to a library, so it is a parameter
`parse: string -> Option<SemVersion>`. Every property holds for every
parser. Each worked example states only what the parser returns for the
strings that example uses.

## Model

Paths are relative to the repository root.

| member | source | states |
|---|---|---|
| KotlinText.PlusOne | plugin/src/main/kotlin/com/eygraber/ReleaseTagVersionTask.kt:168 | `versionCode + 1` is one more below `Int.MAX_VALUE`, and `Int.MIN_VALUE` at `Int.MAX_VALUE` |
| KotlinText.Wrap | plugin/src/main/kotlin/com/eygraber/ReleaseTagVersionTask.kt:168 | the result is congruent to the input modulo 2^32 and lies in the `Int` range; values already in range are unchanged |
| KotlinText.RemovePrefix | plugin/src/main/kotlin/com/eygraber/ReleaseTagVersionTask.kt:101 | when the text starts with the prefix, prefix + result is the text; otherwise the text is returned unchanged |
| KotlinText.StartsWith | plugin/src/main/kotlin/com/eygraber/ReleaseTagVersionTask.kt:234 | defined as the prefix order on strings; its use is stated by `RemovePrefix` and `FilterByPrefix` |
| KotlinText.RemoveSuffix | plugin/src/main/kotlin/com/eygraber/ReleaseTagVersionTask.kt:212 | when the text ends with the suffix, result + suffix is the text; otherwise the text is returned unchanged |
| KotlinText.ToIntOrNull | plugin/src/main/kotlin/com/eygraber/ReleaseTagVersionTask.kt:211 | a number is read only from a non-empty text of decimal digits, or from such digits after one leading `+` or `-` (a lone sign is null); conversely, such a text reads as its signed decimal value when it fits in an `Int`, and as null when it does not |
| KotlinText.NatToStringValue | plugin/src/main/kotlin/com/eygraber/ReleaseTagVersionTask.kt:175 | the decimal digits written for a natural number denote that number |
| KotlinText.IntToStringRoundTrip | plugin/src/main/kotlin/com/eygraber/ReleaseTagVersionPlugin.kt:98 | every `Int` the task writes to the code file with `toString()` reads back as the same `Int` |
| KotlinText.IntToString | plugin/src/main/kotlin/com/eygraber/ReleaseTagVersionTask.kt:175 | defined by a sign and `NatToString`; its property is `IntToStringRoundTrip` |
| KotlinText.Template | plugin/src/main/kotlin/com/eygraber/ReleaseTagVersionTask.kt:212 | a null renders as `"null"`; what that means for the name is stated by `RemoveBuildSuffix` |
| SemVer.BuildMetadata | plugin/src/main/kotlin/com/eygraber/ReleaseTagVersionTask.kt:211 | `buildMetadata` is present exactly when the version has build identifiers, and then it is the text after the `+` that ends the rendering: rendering = rendering without build + "+" + metadata |
| SemVer.ToString | plugin/src/main/kotlin/com/eygraber/ReleaseTagVersionTask.kt:212 | the rendering, `+build` last; its properties are stated by `BuildMetadata`, `ToStringWithoutBuildHasNoPlus` and `RemoveBuildSuffix` |
| SemVer.ToStringWithoutBuildHasNoPlus | plugin/src/main/kotlin/com/eygraber/ReleaseTagVersionTask.kt:212 | a valid version without build metadata renders without any `+` |
| SemVer.JoinDotsHasNoPlus | plugin/src/main/kotlin/com/eygraber/ReleaseTagVersionTask.kt:212 | dot-joined identifiers contain no `+` |
| SemVer.JoinDotsHasDot | plugin/src/main/kotlin/com/eygraber/ReleaseTagVersionTask.kt:211 | two or more build identifiers render with a `.`, which `toIntOrNull` never accepts |
| SemVer.RemoveBuildSuffix | plugin/src/main/kotlin/com/eygraber/ReleaseTagVersionTask.kt:212 | removing `"+${buildMetadata}"` from the rendering gives the rendering without build metadata; with no metadata the template's `"+null"` is never a suffix, so nothing is removed |
| SemVer.Compare | plugin/src/main/kotlin/com/eygraber/ReleaseTagVersionTask.kt:236 | precedence per section 11 of Semantic Versioning 2.0.0, build metadata ignored; its order properties are the lemmas below |
| SemVer.Less | plugin/src/main/kotlin/com/eygraber/ReleaseTagVersionTask.kt:236 | strict precedence; stated by `LessOrder` and `LessTotal` |
| SemVer.CompareAntisymmetric | plugin/src/main/kotlin/com/eygraber/ReleaseTagVersionTask.kt:236 | swapping the operands of the precedence comparison flips its sign |
| SemVer.CompareTransitive | plugin/src/main/kotlin/com/eygraber/ReleaseTagVersionTask.kt:236 | precedence is transitive |
| SemVer.CompareAsciiAntisymmetric | plugin/src/main/kotlin/com/eygraber/ReleaseTagVersionTask.kt:236 | the ASCII order of alphanumeric identifiers is antisymmetric |
| SemVer.CompareAsciiTransitive | plugin/src/main/kotlin/com/eygraber/ReleaseTagVersionTask.kt:236 | the ASCII order of alphanumeric identifiers is transitive |
| SemVer.CompareIdentifierAntisymmetric | plugin/src/main/kotlin/com/eygraber/ReleaseTagVersionTask.kt:236 | the order of single pre-release identifiers (numeric below alphanumeric) is antisymmetric |
| SemVer.CompareIdentifierTransitive | plugin/src/main/kotlin/com/eygraber/ReleaseTagVersionTask.kt:236 | the order of single pre-release identifiers is transitive |
| SemVer.CompareIdentifierChain | plugin/src/main/kotlin/com/eygraber/ReleaseTagVersionTask.kt:236 | chaining a strict and a non-strict identifier comparison gives a strict one |
| SemVer.CompareIdentifierListsAntisymmetric | plugin/src/main/kotlin/com/eygraber/ReleaseTagVersionTask.kt:236 | the identifier-by-identifier order of pre-release lists, in which a longer list ranks above its prefix, is antisymmetric |
| SemVer.CompareIdentifierListsTransitive | plugin/src/main/kotlin/com/eygraber/ReleaseTagVersionTask.kt:236 | the identifier-by-identifier order of pre-release lists is transitive |
| SemVer.ComparePreReleaseAntisymmetric | plugin/src/main/kotlin/com/eygraber/ReleaseTagVersionTask.kt:236 | the pre-release order, in which a release ranks above its pre-releases, is antisymmetric |
| SemVer.ComparePreReleaseTransitive | plugin/src/main/kotlin/com/eygraber/ReleaseTagVersionTask.kt:236 | the pre-release order is transitive |
| SemVer.LessOrder | plugin/src/main/kotlin/com/eygraber/ReleaseTagVersionTask.kt:236 | strict precedence is irreflexive and asymmetric, and a version not above `m` is below every version above `m` |
| SemVer.LessTotal | plugin/src/main/kotlin/com/eygraber/ReleaseTagVersionTask.kt:236 | of two versions, one has lower precedence or the two have equal precedence |
| SemVer.SectionElevenAlpha | plugin/src/main/kotlin/com/eygraber/ReleaseTagVersionTask.kt:236 | 1.0.0-alpha < 1.0.0-alpha.1 < 1.0.0-alpha.beta < 1.0.0-beta, as in section 11.4 of Semantic Versioning 2.0.0 |
| SemVer.SectionElevenBeta | plugin/src/main/kotlin/com/eygraber/ReleaseTagVersionTask.kt:236 | 1.0.0-beta < 1.0.0-beta.2 < 1.0.0-beta.11 < 1.0.0-rc.1 < 1.0.0, as in section 11.4 of Semantic Versioning 2.0.0 |
| SemVer.SectionElevenNumbersAndBuild | plugin/src/main/kotlin/com/eygraber/ReleaseTagVersionTask.kt:236 | 1.9.0 < 1.10.0, and 1.0.0+1 and 1.0.0+2 have equal precedence |
| TagSelection.FilterByPrefix | plugin/src/main/kotlin/com/eygraber/ReleaseTagVersionTask.kt:234 | a line is kept exactly when it is an input line that starts with the prefix, and no more lines come out than go in; `FilterByPrefixAppend` adds that the input order is kept |
| TagSelection.ParseAll | plugin/src/main/kotlin/com/eygraber/ReleaseTagVersionTask.kt:235 | no more versions than lines; every line whose prefix-stripped text parses contributes its version, and every version comes from such a line; `ParseAllAppend` adds that order is kept |
| TagSelection.Keep | plugin/src/main/kotlin/com/eygraber/ReleaseTagVersionTask.kt:236 | one `maxOrNull` step returns the running maximum or the new element, neither is strictly greater than the result, and the new element replaces a different maximum only when strictly greater |
| TagSelection.MaxFrom | plugin/src/main/kotlin/com/eygraber/ReleaseTagVersionTask.kt:236 | the left fold of `Keep`; stated by `MaxOrNullIsFirstMaximum` |
| TagSelection.MaxOrNull | plugin/src/main/kotlin/com/eygraber/ReleaseTagVersionTask.kt:236 | `maxOrNull` is null exactly for no versions; `MaxOrNullIsFirstMaximum` states which element it returns |
| TagSelection.MaxOrNullIsFirstMaximum | plugin/src/main/kotlin/com/eygraber/ReleaseTagVersionTask.kt:236 | for any versions, `maxOrNull` returns one of them, none is strictly greater, and every element before it is strictly lower: the first maximal element |
| TagSelection.MaxOrNullIsStepAll | plugin/src/main/kotlin/com/eygraber/ReleaseTagVersionTask.kt:236 | `maxOrNull` equals the fold of `Step` over the versions as present contributions |
| TagSelection.SelectLatest | plugin/src/main/kotlin/com/eygraber/ReleaseTagVersionTask.kt:233-236 | the filter, parse and max pipeline; stated by `SelectLatestIsFirstMaximum` |
| TagSelection.LatestGitReleaseTag | plugin/src/main/kotlin/com/eygraber/ReleaseTagVersionTask.kt:217-240 | the configured `gitDir` or `gitTagsDir` missing, or a non-zero exit gives no tag and no error; otherwise the pipeline over the printed lines gives the tag |
| TagSelection.FilterByPrefixAppend | plugin/src/main/kotlin/com/eygraber/ReleaseTagVersionTask.kt:234 | the prefix filter distributes over concatenated lines |
| TagSelection.ParseAllAppend | plugin/src/main/kotlin/com/eygraber/ReleaseTagVersionTask.kt:235 | `mapNotNull` over the parser distributes over concatenated lines |
| TagSelection.MaxFromSnoc | plugin/src/main/kotlin/com/eygraber/ReleaseTagVersionTask.kt:236 | one more element changes the running maximum by one keep-unless-strictly-greater step |
| TagSelection.MaxOrNullSnoc | plugin/src/main/kotlin/com/eygraber/ReleaseTagVersionTask.kt:236 | `maxOrNull` of one more version is one step from `maxOrNull` of the others |
| TagSelection.SelectLatestSnoc | plugin/src/main/kotlin/com/eygraber/ReleaseTagVersionTask.kt:233-236 | one more printed line changes the selected version by one step with that line's version |
| TagSelection.SelectLatestIsStepAll | plugin/src/main/kotlin/com/eygraber/ReleaseTagVersionTask.kt:233-236 | the pipeline equals folding the per-line contributions from first to last |
| TagSelection.StepAllNone | plugin/src/main/kotlin/com/eygraber/ReleaseTagVersionTask.kt:236 | the fold gives nothing exactly when no line contributes |
| TagSelection.StepAllIsUpperBound | plugin/src/main/kotlin/com/eygraber/ReleaseTagVersionTask.kt:236 | no contribution has strictly greater precedence than the fold's result |
| TagSelection.StepAllIsFirst | plugin/src/main/kotlin/com/eygraber/ReleaseTagVersionTask.kt:236 | the fold's result is some line's contribution, and every earlier contribution is strictly lower |
| TagSelection.SelectLatestIsFirstMaximum | plugin/src/main/kotlin/com/eygraber/ReleaseTagVersionTask.kt:233-236 | the selected version is none exactly when no line starts with the prefix and parses. Otherwise it is the parse of such a line, no such line has strictly greater precedence, and every such line before it has strictly lower precedence, so the first of equal maxima wins |
| ReleaseTagVersion.FirstPresentIsFirstSome | plugin/src/main/kotlin/com/eygraber/ReleaseTagVersionTask.kt:148-153 | an elvis chain is null exactly when every operand is; otherwise it is the first non-null operand |
| ReleaseTagVersion.FirstPresentAt | plugin/src/main/kotlin/com/eygraber/ReleaseTagVersionTask.kt:148-153 | when operand `k` is the first non-null one, the chain yields it |
| ReleaseTagVersion.FirstPresentOfFour | plugin/src/main/kotlin/com/eygraber/ReleaseTagVersionTask.kt:149-152 | a chain of four operands is `t0 ?: (t1 ?: (t2 ?: t3))` |
| ReleaseTagVersion.Elvis | plugin/src/main/kotlin/com/eygraber/ReleaseTagVersionTask.kt:148-153 | Kotlin `a ?: b`; chains of it are stated by `FirstPresentIsFirstSome` |
| ReleaseTagVersion.FirstPresent | plugin/src/main/kotlin/com/eygraber/ReleaseTagVersionTask.kt:148-153 | a right-grouped elvis chain; stated by `FirstPresentIsFirstSome`, `FirstPresentAt` and `FirstPresentOfFour` |
| ReleaseTagVersion.VersionInfo.CodeAndSource | plugin/src/main/kotlin/com/eygraber/ReleaseTagVersionTask.kt:27 | the pair (code, codeSource) exactly when there is a code |
| ReleaseTagVersion.VersionInfo.NameAndSource | plugin/src/main/kotlin/com/eygraber/ReleaseTagVersionTask.kt:28 | the pair (name, nameSource) exactly when there is a name |
| ReleaseTagVersion.WithConventions | plugin/src/main/kotlin/com/eygraber/ReleaseTagVersionPlugin.kt:34-43 | both fields inferred, fallback 1 and "1.0.0", prefix "", release types {"release"}, overrides from the project properties with `versionCodeOverride` read by `toIntOrNull`; used by every worked example |
| ReleaseTagVersion.InfoFromText | plugin/src/main/kotlin/com/eygraber/ReleaseTagVersionTask.kt:117-130 | a result exactly when there is a text whose prefix-stripped (not trimmed) form parses; then both sources are the given one, the name is that version without build metadata, and the code is its single build identifier read by `toIntOrNull`, else absent |
| ReleaseTagVersion.OverridingInfo | plugin/src/main/kotlin/com/eygraber/ReleaseTagVersionTask.kt:98-108 | `versionOverride` through `InfoFromText`; stated by `PropertyTierDerivesFromVersionOverride` and `VersionOverrideSupplies` |
| ReleaseTagVersion.OverridingPropertiesInfo | plugin/src/main/kotlin/com/eygraber/ReleaseTagVersionTask.kt:110-115 | both sources are OverridingProperty; a field override, when set, is that field; a field is absent exactly when its override and the value derived from `versionOverride` are both absent |
| ReleaseTagVersion.OverridingFileInfo | plugin/src/main/kotlin/com/eygraber/ReleaseTagVersionTask.kt:117-130 | the override file through `InfoFromText`; stated by `FileTierDerivesFromOverrideFile` and `OverrideFileSupplies` |
| ReleaseTagVersion.LatestGitReleaseInfo | plugin/src/main/kotlin/com/eygraber/ReleaseTagVersionTask.kt:132-138 | present exactly when a latest tag is selected; then both sources are LatestGitTag, the name is that tag without build metadata, and the code is its single build identifier read by `toIntOrNull`, else absent |
| ReleaseTagVersion.FallbackInfo | plugin/src/main/kotlin/com/eygraber/ReleaseTagVersionTask.kt:140-145 | the fallback code and name are always present, both from Fallback |
| ReleaseTagVersion.ExtractVersionInfoFromSemVer | plugin/src/main/kotlin/com/eygraber/ReleaseTagVersionTask.kt:207-215 | both sources are the given one. The name is the rendering of the version without build metadata, and it contains no `+`. With no metadata there is no code. With one build identifier the code is that identifier read by `toIntOrNull`. A code exists only for exactly one build identifier |
| ReleaseTagVersion.CodeTiers | plugin/src/main/kotlin/com/eygraber/ReleaseTagVersionTask.kt:98-152 | the code chain has four operands, sourced OverridingProperty, OverridingFile, LatestGitTag and Fallback in that order, and the last is always the fallback code |
| ReleaseTagVersion.NameTiers | plugin/src/main/kotlin/com/eygraber/ReleaseTagVersionTask.kt:98-145 | the name chain has the same four operands for names, and the last is always the fallback name |
| ReleaseTagVersion.ResolveCode | plugin/src/main/kotlin/com/eygraber/ReleaseTagVersionTask.kt:147-153 | the code chain never reaches `error("Couldn't find a version code")` |
| ReleaseTagVersion.ResolveName | plugin/src/main/kotlin/com/eygraber/ReleaseTagVersionTask.kt:185-191 | the name chain never reaches `error("Couldn't find a version name")` |
| ReleaseTagVersion.FinalVersionCode | plugin/src/main/kotlin/com/eygraber/ReleaseTagVersionTask.kt:158-170 | the build-type adjustment; stated for the written code by `ResolutionProperties.BuildTypeAdjustment` and `DebugFollowsRelease` |
| ReleaseTagVersion.GetVersion | plugin/src/main/kotlin/com/eygraber/ReleaseTagVersionTask.kt:93-205 | the task always succeeds, and writes a code exactly when the code is inferred and a name exactly when the name is inferred; otherwise it deletes that file |
| ResolutionProperties.CodePrecedence | plugin/src/main/kotlin/com/eygraber/ReleaseTagVersionTask.kt:147-153 | when tier `k` is the first with a code, the resolved code is that tier's, with that tier's source, and no lower tier's source |
| ResolutionProperties.NamePrecedence | plugin/src/main/kotlin/com/eygraber/ReleaseTagVersionTask.kt:185-191 | the same precedence for the name, resolved on its own |
| ResolutionProperties.GetVersionFromTiers | plugin/src/main/kotlin/com/eygraber/ReleaseTagVersionTask.kt:147-200 | with both fields inferred, the task writes the first code tier adjusted for the build type and the first name tier, each with its tier's source, even when the two tiers differ |
| ResolutionProperties.BuildTypeAdjustment | plugin/src/main/kotlin/com/eygraber/ReleaseTagVersionTask.kt:155-170 | the name is written as resolved. The code keeps its source. A release build type keeps the code. Any other build type adds one (with wrap-around) to a code from LatestGitTag, and keeps codes from every other source |
| ResolutionProperties.DebugFollowsRelease | plugin/src/main/kotlin/com/eygraber/ReleaseTagVersionTask.kt:155-170 | a non-release build gets the release build's code plus one when it comes from the latest tag, otherwise the same code, and always the same name and sources |
| ResolutionProperties.FieldCodeOverrideWins | plugin/src/main/kotlin/com/eygraber/ReleaseTagVersionTask.kt:110-115 | `versionCodeOverride` wins over the code of `versionOverride`, and that code over every lower tier. The code is from OverridingProperty exactly when one of the two is present |
| ResolutionProperties.FieldNameOverrideWins | plugin/src/main/kotlin/com/eygraber/ReleaseTagVersionTask.kt:110-115 | `versionNameOverride` wins over the name of `versionOverride`, and that name over every lower tier. The name is from OverridingProperty exactly when one of the two is present |
| ResolutionProperties.SharedTiers | plugin/src/main/kotlin/com/eygraber/ReleaseTagVersionTask.kt:98-138 | the versionOverride, file and tag tiers read only the override text, the file, the repository and the prefix |
| ResolutionProperties.NameIgnoresCodeSettings | plugin/src/main/kotlin/com/eygraber/ReleaseTagVersionTask.kt:185-204 | the written name does not depend on any code setting: code inference, code override, fallback code, build type or release build types |
| ResolutionProperties.CodeIgnoresNameSettings | plugin/src/main/kotlin/com/eygraber/ReleaseTagVersionTask.kt:147-183 | the written code does not depend on any name setting: name inference, name override or fallback name |
| ResolutionProperties.MissingGitDataGivesNoTag | plugin/src/main/kotlin/com/eygraber/ReleaseTagVersionTask.kt:218-219 | with the configured `gitDir` or `gitTagsDir` missing, or a failing `git tag -l`, neither field comes from LatestGitTag, and the task still succeeds |
| ResolutionProperties.TagTierDerivesFromLatestTag | plugin/src/main/kotlin/com/eygraber/ReleaseTagVersionTask.kt:132-138 | a code from LatestGitTag is the single build identifier of the selected tag read as an `Int`; a name from LatestGitTag is the selected tag's text without build metadata |
| ResolutionProperties.FileTierDerivesFromOverrideFile | plugin/src/main/kotlin/com/eygraber/ReleaseTagVersionTask.kt:117-130 | a code or name from OverridingFile comes from the file text with the prefix removed only when present and nothing trimmed: the code is the parsed version's single build identifier read as an `Int`, the name that version without build metadata |
| ResolutionProperties.PropertyTierDerivesFromVersionOverride | plugin/src/main/kotlin/com/eygraber/ReleaseTagVersionTask.kt:98-115 | without a field override, a code or name from OverridingProperty comes from the `versionOverride` text in the same way |
| ResolutionProperties.VersionOverrideSupplies | plugin/src/main/kotlin/com/eygraber/ReleaseTagVersionTask.kt:98-115 | conversely, a `versionOverride` that parses supplies its derived code unless `versionCodeOverride` is set, and its name unless `versionNameOverride` is set, both from OverridingProperty |
| ResolutionProperties.OverrideFileSupplies | plugin/src/main/kotlin/com/eygraber/ReleaseTagVersionTask.kt:117-130 | conversely, an override file whose text parses supplies its derived code and name, from OverridingFile, whenever the property tier has none |
| ResolutionProperties.LatestTagSupplies | plugin/src/main/kotlin/com/eygraber/ReleaseTagVersionTask.kt:132-138 | conversely, the selected tag supplies its derived code and name, from LatestGitTag, whenever neither override tier has one |
| ResolutionScenarios.TagTier | plugin/src/main/kotlin/com/eygraber/ReleaseTagVersionTask.kt:132-138 | a repository in which one line passes the prefix filter gives that line's version as the latest tag |
| ResolutionScenarios.Derived | plugin/src/main/kotlin/com/eygraber/ReleaseTagVersionTask.kt:207-215 | the information derived from a version with at most one build identifier |
| ResolutionScenarios.FallbackStrategy | plugin/src/test/kotlin/com/eygraber/ReleaseTagVersionPluginTest.kt:228-251 | with nothing configured, the code is 1 and the name "1.0.0", both from Fallback |
| ResolutionScenarios.LatestGitTagStrategy | plugin/src/test/kotlin/com/eygraber/ReleaseTagVersionPluginTest.kt:224-249 | the tag `1.0.0+2` gives code 2 and name "1.0.0" from LatestGitTag |
| ResolutionScenarios.LatestGitTagWithPrefixStrategy | plugin/src/test/kotlin/com/eygraber/ReleaseTagVersionPluginTest.kt:76-79 | with prefix `v`, the tags `2.0.0+100` and `v1.0.0+2` give code 2 and name "1.0.0" from LatestGitTag |
| ResolutionScenarios.VersionFileOverrideStrategy | plugin/src/test/kotlin/com/eygraber/ReleaseTagVersionPluginTest.kt:222-245 | the file `1.0.2+3` beats the tag: code 3 and name "1.0.2" from OverridingFile |
| ResolutionScenarios.VersionOverrideStrategy | plugin/src/test/kotlin/com/eygraber/ReleaseTagVersionPluginTest.kt:92-98 | `versionOverride` `1.0.3+4` beats the file and the tag: code 4 and name "1.0.3" from OverridingProperty |
| ResolutionScenarios.VersionOverrideCliStrategy | plugin/src/test/kotlin/com/eygraber/ReleaseTagVersionPluginTest.kt:191 | the same result for `-PversionOverride=1.0.3+4` |
| ResolutionScenarios.VersionCodeOverrideStrategy | plugin/src/test/kotlin/com/eygraber/ReleaseTagVersionPluginTest.kt:100-107 | `versionCodeOverride` 5 gives code 5, and the name "1.0.3" still comes from `versionOverride`, both from OverridingProperty |
| ResolutionScenarios.VersionCodeOverrideCliStrategy | plugin/src/test/kotlin/com/eygraber/ReleaseTagVersionPluginTest.kt:193-196 | `-PversionCodeOverride=5`, read with `toIntOrNull`, gives the same result |
| ResolutionScenarios.VersionNameOverrideStrategy | plugin/src/test/kotlin/com/eygraber/ReleaseTagVersionPluginTest.kt:109-116 | `versionNameOverride` 1.0.4 gives name "1.0.4", and the code 4 still comes from `versionOverride` |
| ResolutionScenarios.VersionNameOverrideCliStrategy | plugin/src/test/kotlin/com/eygraber/ReleaseTagVersionPluginTest.kt:198-201 | `-PversionNameOverride=1.0.4` gives the same result |
| ResolutionScenarios.NoVersionCodeInferenceStrategy | plugin/src/test/kotlin/com/eygraber/ReleaseTagVersionPluginTest.kt:253-262 | with code inference off, no code is written and the name is "1.0.0" from Fallback |
| ResolutionScenarios.NoVersionNameInferenceStrategy | plugin/src/test/kotlin/com/eygraber/ReleaseTagVersionPluginTest.kt:231-266 | with name inference off, no name is written and the code is 1 from Fallback |
| ResolutionScenarios.FileNameWithTagCode | plugin/src/test/kotlin/com/eygraber/ReleaseTagVersionPluginTest.kt:331-343 | the file `1.2.3` and the tag `1.0.0+1` give code 1 from LatestGitTag and name "1.2.3" from OverridingFile |
| ResolutionScenarios.FileNonNumericWithTagCode | plugin/src/test/kotlin/com/eygraber/ReleaseTagVersionPluginTest.kt:346-358 | the file `1.2.3+abc` and the tag `1.0.0+1` give code 1 from LatestGitTag and name "1.2.3" from OverridingFile |
| ResolutionScenarios.TagWithoutMetadata | plugin/src/test/kotlin/com/eygraber/ReleaseTagVersionPluginTest.kt:361-372 | the tag `1.2.3` gives code 1 from Fallback and name "1.2.3" from LatestGitTag |
| ResolutionScenarios.TagWithNonNumericMetadata | plugin/src/test/kotlin/com/eygraber/ReleaseTagVersionPluginTest.kt:375-386 | the tag `1.2.3+abc` gives code 1 from Fallback and name "1.2.3" from LatestGitTag |
| ResolutionScenarios.DebugBuildIncrementsTagCode | plugin/src/test/kotlin/com/eygraber/ReleaseTagVersionPluginTest.kt:389-400 | a debug build with the tag `1.2.3+4` gets code 5 and name "1.2.3" from LatestGitTag |
| ResolutionScenarios.CustomReleaseBuildTypes | plugin/src/test/kotlin/com/eygraber/ReleaseTagVersionPluginTest.kt:403-428 | with release build types {"staging"}, a staging build keeps the tag's code 4 |
| ResolutionScenarios.EqualPrecedenceTagsKeepFirst | plugin/src/main/kotlin/com/eygraber/ReleaseTagVersionTask.kt:236 | the tags `1.0.0+1` and `1.0.0+2` have equal precedence; the first printed is selected, so the code is 1 |
| ResolutionScenarios.UnprefixedTagsAreNotVersions | plugin/src/test/kotlin/com/eygraber/ReleaseTagVersionPluginTest.kt:659-664 | with no prefix, the tags `p1.2.4+5` and `v1.2.3+4` do not parse, so code 1 and name "1.0.0" come from Fallback |
| ResolutionScenarios.PrefixSelectsTags | plugin/src/test/kotlin/com/eygraber/ReleaseTagVersionPluginTest.kt:666-677 | with prefix `v`, the same tags give code 4 and name "1.2.3" from LatestGitTag |
| ResolutionScenarios.ReleaseBuildKeepsTagCode | plugin/src/test/kotlin/com/eygraber/ReleaseTagVersionPluginTest.kt:431-438 | the tag `1.2.3+4` in a release build gives code 4 and name "1.2.3" from LatestGitTag |
| ResolutionScenarios.NoCodeInferenceKeepsTagName | plugin/src/test/kotlin/com/eygraber/ReleaseTagVersionPluginTest.kt:431-460 | with code inference off, no code is written and the name "1.2.3" still comes from LatestGitTag |
| ResolutionScenarios.NoNameInferenceKeepsTagCode | plugin/src/test/kotlin/com/eygraber/ReleaseTagVersionPluginTest.kt:463-491 | with name inference off, no name is written and the code 4 still comes from LatestGitTag |
| ResolutionScenarios.VersionOverrideBeatsTag | plugin/src/test/kotlin/com/eygraber/ReleaseTagVersionPluginTest.kt:494-509 | `-PversionOverride=1.2.4+5` gives code 5 and name "1.2.4" from OverridingProperty over the tag |
| ResolutionScenarios.CodeOverrideAloneKeepsTagName | plugin/src/test/kotlin/com/eygraber/ReleaseTagVersionPluginTest.kt:512-527 | `-PversionCodeOverride=5` alone gives code 5 from OverridingProperty and name "1.2.3" from LatestGitTag |
| ResolutionScenarios.NameOverrideAloneKeepsTagCode | plugin/src/test/kotlin/com/eygraber/ReleaseTagVersionPluginTest.kt:530-545 | `-PversionNameOverride=1.2.4` alone gives code 4 from LatestGitTag and name "1.2.4" from OverridingProperty |
| ResolutionScenarios.OverrideFileBeatsTag | plugin/src/test/kotlin/com/eygraber/ReleaseTagVersionPluginTest.kt:548-565 | the override file `1.2.4+5` gives code 5 and name "1.2.4" from OverridingFile over the tag |
| ResolutionScenarios.NewerTagIsSelected | plugin/src/test/kotlin/com/eygraber/ReleaseTagVersionPluginTest.kt:568-585 | tags `1.2.3+4` and `1.2.4+5` give code 5 and name "1.2.4" from LatestGitTag: the strictly greater tag is selected |
| ResolutionScenarios.FallbackVersionCodeSetting | plugin/src/test/kotlin/com/eygraber/ReleaseTagVersionPluginTest.kt:608-629 | `fallbackVersionCode` 2 gives code 2 from Fallback |
| ResolutionScenarios.FallbackVersionNameSetting | plugin/src/test/kotlin/com/eygraber/ReleaseTagVersionPluginTest.kt:632-653 | `fallbackVersionName` "2.0.0" gives that name from Fallback |
| ResolutionScenarios.StagingOutsideReleaseTypes | plugin/src/test/kotlin/com/eygraber/ReleaseTagVersionPluginTest.kt:682-713 | a staging build outside the default release build types gets code 5 from the tag `1.2.3+4`, and code 4 once `releaseBuildTypes` is {"staging"} |

## Left out

- Writing and deleting the two output files, `mkdirs` and the lifecycle log
  lines. The model returns the values that would be written, with their
  sources, as `TaskOutputs`. `None` stands for a deleted file.
- Running `git tag -l` and reading its output. Whether the configured
  `gitDir` and `gitTagsDir` exist (the plugin sets both to
  `.git/refs/tags`), the exit code and the printed lines are inputs
  (`GitRepository`). The tags are taken in the order the command prints them.
- Reading the override file. Its text is an input: `None` when no file is
  configured or the file does not exist. The text is used exactly as read,
  with no trimming. A trailing newline therefore reaches the parser, which
  may reject it.
- The semantic-version library. Its parser is an abstract parameter. Its
  rendering and its precedence are written out from Semantic Versioning
  2.0.0, not from the library's code. Pre-release identifiers are compared
  in ASCII order, which is what section 11.4.2 of that standard asks for.
- Gradle's plumbing: property annotations, providers, up-to-date checks,
  caching and the configuration cache. The same goes for all of
  `ReleaseTagVersionPlugin.kt` except its default values (lines 34-43),
  which `WithConventions` carries. Reading a property that is unset and has
  no convention throws in Gradle. The model instead takes every setting as
  a value.
- ToIntOrNull: accepts ASCII digits only. Kotlin's `toIntOrNull` also
  accepts other Unicode decimal digits. Those never occur in Semantic
  Versioning build metadata, but they can occur in a `versionCodeOverride`
  property value (ReleaseTagVersionPlugin.kt:40), which the model then
  reads as null where Kotlin reads a number.
- The plugin reads the code file back with `toInt()`. `IntToStringRoundTrip`
  shows this never fails on what the task writes. The variant wiring around
  it is not modelled.
- The test-suite `update` helper and the configuration-cache assertions have
  no counterpart. They are about Gradle's runtime, not the resolution.
