/** The version resolution of `ReleaseTagVersionTask.getVersion`: four tiers
    of candidates (property overrides, the override file, the latest git tag,
    the fallback), resolved first-present-wins independently for the version
    code and the version name, then the build-type adjustment of the code.
    The files the task writes are modelled as the values it would write. */
module ReleaseTagVersion {
  import opened Wrappers
  import opened KotlinText
  import opened SemVer
  import opened TagSelection

  /** Where a resolved value came from. `NotInferred` is never produced. */
  datatype VersionSource = Fallback | LatestGitTag | NotInferred | OverridingFile | OverridingProperty

  /** A value paired with its source (the Kotlin `value to source` pair). */
  datatype Sourced<T> = Sourced(value: T, source: VersionSource)

  /** A candidate code and name from one tier; each may be absent. */
  datatype VersionInfo = VersionInfo(code: Option<Int32>, name: Option<string>, codeSource: VersionSource, nameSource: VersionSource)
  {
    /** `codeAndSource()`: the code paired with its source, when there is a code. */
    function CodeAndSource(): (r: Option<Sourced<Int32>>)
      ensures r.Some? <==> code.Some?
      ensures r.Some? ==> r.value == Sourced(code.value, codeSource)
    {
      match code
      case Some(c) => Some(Sourced(c, codeSource))
      case None => None
    }

    /** `nameAndSource()`: the name paired with its source, when there is a name. */
    function NameAndSource(): (r: Option<Sourced<string>>)
      ensures r.Some? <==> name.Some?
      ensures r.Some? ==> r.value == Sourced(name.value, nameSource)
    {
      match name
      case Some(n) => Some(Sourced(n, nameSource))
      case None => None
    }
  }

  /** The task's inputs, with the file and process I/O already done:
      `versionOverrideFileText` is the text of the override file when one is
      configured and exists, `git` what `git tag -l` reported. */
  datatype TaskInputs = TaskInputs(
    versionCodeIsInferred: bool,
    versionNameIsInferred: bool,
    versionOverrideFileText: Option<string>,
    git: GitRepository,
    buildType: string,
    versionOverride: Option<string>,
    versionCodeOverride: Option<Int32>,
    versionNameOverride: Option<string>,
    releaseBuildTypes: set<string>,
    versionPrefix: string,
    fallbackVersionCode: Int32,
    fallbackVersionName: string)

  /** What the task writes: the code file's value and the name file's value
      with their sources, or `None` where the file is deleted instead. */
  datatype TaskOutputs = TaskOutputs(versionCode: Option<Sourced<Int32>>, versionName: Option<Sourced<string>>)

  /** The plugin's conventions: both fields inferred, fallback code 1 and name
      "1.0.0", empty prefix, release build types {"release"}, and the
      overrides read from the project properties, the code one through
      `toIntOrNull`. */
  function WithConventions(properties: map<string, string>, overrideFileText: Option<string>, git: GitRepository, buildType: string): TaskInputs {
    TaskInputs(
      versionCodeIsInferred := true,
      versionNameIsInferred := true,
      versionOverrideFileText := overrideFileText,
      git := git,
      buildType := buildType,
      versionOverride := if "versionOverride" in properties then Some(properties["versionOverride"]) else None,
      versionCodeOverride := if "versionCodeOverride" in properties then ToIntOrNull(properties["versionCodeOverride"]) else None,
      versionNameOverride := if "versionNameOverride" in properties then Some(properties["versionNameOverride"]) else None,
      releaseBuildTypes := {"release"},
      versionPrefix := "",
      fallbackVersionCode := 1,
      fallbackVersionName := "1.0.0")
  }

  /** Kotlin's `a ?: b` on nullable values. */
  function Elvis<T>(a: Option<T>, b: Option<T>): Option<T> {
    if a.Some? then a else b
  }

  /** A chain `t0 ?: t1 ?: ... ?: tn`. */
  function FirstPresent<T>(tiers: seq<Option<T>>): Option<T> {
    if tiers == [] then None else Elvis(tiers[0], FirstPresent(tiers[1..]))
  }

  /** The chain yields the first present tier, and nothing only when every
      tier is absent. */
  lemma {:induction false} FirstPresentIsFirstSome<T>(tiers: seq<Option<T>>)
    ensures FirstPresent(tiers).None? <==> forall j :: 0 <= j < |tiers| ==> tiers[j].None?
    ensures FirstPresent(tiers).Some? ==>
              exists k :: 0 <= k < |tiers| && tiers[k] == FirstPresent(tiers) && forall j :: 0 <= j < k ==> tiers[j].None?
  {
    if tiers != [] {
      FirstPresentIsFirstSome(tiers[1..]);
      if tiers[0].None? && FirstPresent(tiers[1..]).Some? {
        var k :| 0 <= k < |tiers[1..]| && tiers[1..][k] == FirstPresent(tiers[1..])
                 && forall j :: 0 <= j < k ==> tiers[1..][j].None?;
        assert tiers[k + 1] == FirstPresent(tiers);
      }
    }
  }

  /** When tier `k` is the first present one, the chain yields it. */
  lemma {:induction false} FirstPresentAt<T>(tiers: seq<Option<T>>, k: nat)
    requires k < |tiers| && tiers[k].Some?
    requires forall j :: 0 <= j < k ==> tiers[j].None?
    ensures FirstPresent(tiers) == tiers[k]
  {
    if k > 0 {
      FirstPresentAt(tiers[1..], k - 1);
    }
  }

  /** Over four tiers the chain is `t0 ?: t1 ?: t2 ?: t3`, grouped to the
      right as Kotlin groups `?:`. */
  lemma FirstPresentOfFour<T>(tiers: seq<Option<T>>)
    requires |tiers| == 4
    ensures FirstPresent(tiers) == Elvis(tiers[0], Elvis(tiers[1], Elvis(tiers[2], tiers[3])))
  {
    var rest := tiers[1..];
    assert rest[1..][1..][1..] == [];
    assert FirstPresent(rest[1..][1..]) == tiers[3];
    assert FirstPresent(rest[1..]) == Elvis(tiers[2], tiers[3]);
    assert FirstPresent(rest) == Elvis(tiers[1], Elvis(tiers[2], tiers[3]));
  }

  /** `extractVersionInfoFromSemVer`: the code is the build metadata read with
      `toIntOrNull`, the name the version's text with `"+" + buildMetadata`
      removed, both from the same source. */
  function ExtractVersionInfoFromSemVer(version: SemVersion, source: VersionSource): (r: VersionInfo)
    ensures r.codeSource == source && r.nameSource == source
    ensures r.name == Some(ToString(WithoutBuild(version))) && '+' !in r.name.value
    ensures version.build == [] ==> r.code.None?
    ensures |version.build| == 1 ==> r.code == ToIntOrNull(version.build[0])
    ensures r.code.Some? ==> |version.build| == 1
  {
    RemoveBuildSuffix(version);
    ToStringWithoutBuildHasNoPlus(WithoutBuild(version));
    JoinDotsHasDot(version.build);
    var metadata := BuildMetadata(version);
    VersionInfo(
      code := if metadata.Some? then ToIntOrNull(metadata.value) else None,
      name := Some(RemoveSuffix(ToString(version), "+" + Template(metadata))),
      codeSource := source,
      nameSource := source)
  }

  /** Strip the prefix (a no-op when it is absent), parse, derive. */
  function InfoFromText(text: Option<string>, prefix: string, parse: Parser, source: VersionSource): (r: Option<VersionInfo>)
    ensures r.Some? <==> text.Some? && parse(RemovePrefix(text.value, prefix)).Some?
    ensures r.Some? ==> r.value.codeSource == source && r.value.nameSource == source
    ensures r.Some? ==> r.value.name == Some(ToString(WithoutBuild(parse(RemovePrefix(text.value, prefix)).value)))
    ensures r.Some? ==> r.value.code == (var v := parse(RemovePrefix(text.value, prefix)).value;
                                         if |v.build| == 1 then ToIntOrNull(v.build[0]) else None)
  {
    match text
    case None => None
    case Some(t) =>
      match parse(RemovePrefix(t, prefix))
      case None => None
      case Some(v) => Some(ExtractVersionInfoFromSemVer(v, source))
  }

  /** `overridingInfo`: the `versionOverride` property, parsed and derived. */
  function OverridingInfo(inputs: TaskInputs, parse: Parser): Option<VersionInfo> {
    InfoFromText(inputs.versionOverride, inputs.versionPrefix, parse, OverridingProperty)
  }

  function CodeOf(info: Option<VersionInfo>): Option<Int32> {
    if info.Some? then info.value.code else None
  }

  function NameOf(info: Option<VersionInfo>): Option<string> {
    if info.Some? then info.value.name else None
  }

  /** `overridingPropertiesInfo`: the field override, else the field derived
      from `versionOverride`; both labelled `OverridingProperty`. */
  function OverridingPropertiesInfo(inputs: TaskInputs, parse: Parser): (r: VersionInfo)
    ensures r.codeSource == OverridingProperty && r.nameSource == OverridingProperty
    ensures inputs.versionCodeOverride.Some? ==> r.code == inputs.versionCodeOverride
    ensures inputs.versionNameOverride.Some? ==> r.name == inputs.versionNameOverride
    ensures r.code.None? <==> inputs.versionCodeOverride.None? && CodeOf(OverridingInfo(inputs, parse)).None?
    ensures r.name.None? <==> inputs.versionNameOverride.None? && NameOf(OverridingInfo(inputs, parse)).None?
  {
    var info := OverridingInfo(inputs, parse);
    VersionInfo(
      code := Elvis(inputs.versionCodeOverride, CodeOf(info)),
      name := Elvis(inputs.versionNameOverride, NameOf(info)),
      codeSource := OverridingProperty,
      nameSource := OverridingProperty)
  }

  /** `overridingFileInfo`: the override file's text, not trimmed. */
  function OverridingFileInfo(inputs: TaskInputs, parse: Parser): Option<VersionInfo> {
    InfoFromText(inputs.versionOverrideFileText, inputs.versionPrefix, parse, OverridingFile)
  }

  /** `latestGitReleaseInfo`: the selected tag, derived with source LatestGitTag. */
  function LatestGitReleaseInfo(inputs: TaskInputs, parse: Parser): (r: Option<VersionInfo>)
    ensures r.Some? <==> LatestGitReleaseTag(inputs.git, inputs.versionPrefix, parse).Some?
    ensures r.Some? ==> r.value.codeSource == LatestGitTag && r.value.nameSource == LatestGitTag
    ensures r.Some? ==> r.value.name == Some(ToString(WithoutBuild(LatestGitReleaseTag(inputs.git, inputs.versionPrefix, parse).value)))
    ensures r.Some? ==> r.value.code == (var t := LatestGitReleaseTag(inputs.git, inputs.versionPrefix, parse).value;
                                         if |t.build| == 1 then ToIntOrNull(t.build[0]) else None)
  {
    match LatestGitReleaseTag(inputs.git, inputs.versionPrefix, parse)
    case None => None
    case Some(v) => Some(ExtractVersionInfoFromSemVer(v, LatestGitTag))
  }

  /** `fallbackInfo`: the fallback code and name, both always present. */
  function FallbackInfo(inputs: TaskInputs): (r: VersionInfo)
    ensures r.CodeAndSource() == Some(Sourced(inputs.fallbackVersionCode, Fallback))
    ensures r.NameAndSource() == Some(Sourced(inputs.fallbackVersionName, Fallback))
  {
    VersionInfo(Some(inputs.fallbackVersionCode), Some(inputs.fallbackVersionName), Fallback, Fallback)
  }

  /** The sources of the four tiers, highest precedence first. */
  const TierSources: seq<VersionSource> := [OverridingProperty, OverridingFile, LatestGitTag, Fallback]

  function CodeAndSourceOf(info: Option<VersionInfo>): Option<Sourced<Int32>> {
    if info.Some? then info.value.CodeAndSource() else None
  }

  function NameAndSourceOf(info: Option<VersionInfo>): Option<Sourced<string>> {
    if info.Some? then info.value.NameAndSource() else None
  }

  /** The operands of the version-code elvis chain, in order. */
  function CodeTiers(inputs: TaskInputs, parse: Parser): (tiers: seq<Option<Sourced<Int32>>>)
    ensures |tiers| == 4
    ensures forall k :: 0 <= k < 4 && tiers[k].Some? ==> tiers[k].value.source == TierSources[k]
    ensures tiers[3] == Some(Sourced(inputs.fallbackVersionCode, Fallback))
  {
    [ OverridingPropertiesInfo(inputs, parse).CodeAndSource(),
      CodeAndSourceOf(OverridingFileInfo(inputs, parse)),
      CodeAndSourceOf(LatestGitReleaseInfo(inputs, parse)),
      FallbackInfo(inputs).CodeAndSource() ]
  }

  /** The operands of the version-name elvis chain, in order. */
  function NameTiers(inputs: TaskInputs, parse: Parser): (tiers: seq<Option<Sourced<string>>>)
    ensures |tiers| == 4
    ensures forall k :: 0 <= k < 4 && tiers[k].Some? ==> tiers[k].value.source == TierSources[k]
    ensures tiers[3] == Some(Sourced(inputs.fallbackVersionName, Fallback))
  {
    [ OverridingPropertiesInfo(inputs, parse).NameAndSource(),
      NameAndSourceOf(OverridingFileInfo(inputs, parse)),
      NameAndSourceOf(LatestGitReleaseInfo(inputs, parse)),
      FallbackInfo(inputs).NameAndSource() ]
  }

  /** The version-code chain, ending in `error("Couldn't find a version code")`. */
  function ResolveCode(inputs: TaskInputs, parse: Parser): (r: Result<Sourced<Int32>, string>)
    ensures r.Success?
  {
    FirstPresentIsFirstSome(CodeTiers(inputs, parse));
    match FirstPresent(CodeTiers(inputs, parse))
    case Some(c) => Success(c)
    case None => Failure("Couldn't find a version code")
  }

  /** The version-name chain, ending in `error("Couldn't find a version name")`. */
  function ResolveName(inputs: TaskInputs, parse: Parser): (r: Result<Sourced<string>, string>)
    ensures r.Success?
  {
    FirstPresentIsFirstSome(NameTiers(inputs, parse));
    match FirstPresent(NameTiers(inputs, parse))
    case Some(n) => Success(n)
    case None => Failure("Couldn't find a version name")
  }

  /** `finalVersionCode`: release build types keep the code; other build
      types add one (with `Int` wrap-around) to a code from the latest tag
      and keep every other source's code. */
  function FinalVersionCode(code: Int32, source: VersionSource, buildType: string, releaseBuildTypes: set<string>): Int32 {
    if buildType in releaseBuildTypes then code
    else match source
      case Fallback => code
      case NotInferred => code
      case OverridingFile => code
      case OverridingProperty => code
      case LatestGitTag => PlusOne(code)
  }

  /** `getVersion`: the code is resolved first (and a failure there aborts the
      task), then the name; a field whose inference is off yields nothing.
      The fallback tier is always present, so the task never fails. */
  function GetVersion(inputs: TaskInputs, parse: Parser): (r: Result<TaskOutputs, string>)
    ensures r.Success?
    ensures r.value.versionCode.None? <==> !inputs.versionCodeIsInferred
    ensures r.value.versionName.None? <==> !inputs.versionNameIsInferred
  {
    var code: Result<Option<Sourced<Int32>>, string> :=
      if !inputs.versionCodeIsInferred then Success(None)
      else match ResolveCode(inputs, parse)
        case Failure(e) => Failure(e)
        case Success(c) =>
          Success(Some(Sourced(FinalVersionCode(c.value, c.source, inputs.buildType, inputs.releaseBuildTypes), c.source)));
    match code
    case Failure(e) => Failure(e)
    case Success(codeOutput) =>
      var name: Result<Option<Sourced<string>>, string> :=
        if !inputs.versionNameIsInferred then Success(None)
        else match ResolveName(inputs, parse)
          case Failure(e) => Failure(e)
          case Success(n) => Success(Some(n));
      match name
      case Failure(e) => Failure(e)
      case Success(nameOutput) => Success(TaskOutputs(codeOutput, nameOutput))
  }
}
