/**
 * Creating a skill directory under a base path: `init` scaffolds one from
 * templates, `init --fork` fills one from a repository's `main` archive.
 * Both check the name first and never replace an existing entry.
 */
module Create {
  import opened Wrappers
  import opened SkillName
  import opened Fs
  import opened Remote

  // ---------------------------------------------------------------------
  // init
  // ---------------------------------------------------------------------

  /**
   * The four templates `init` reads, `None` where reading one throws. The
   * interpolation of `{{skill_name}}` and `{{skill_title}}` is the parameter
   * `fill`; the asset template is copied as is.
   */
  datatype Templates = Templates(skill: Option<string>, script: Option<string>, reference: Option<string>, asset: Option<string>)

  predicate AllTemplates(t: Templates) {
    t.skill.Some? && t.script.Some? && t.reference.Some? && t.asset.Some?
  }

  /** The directory a complete scaffold produces. */
  function Layout(skill: string, script: string, reference: string, asset: string): map<string, Node> {
    map[ManifestName := File(skill),
        "scripts" := Dir(map["example.ts" := File(script)]),
        "references" := Dir(map["api_reference.md" := File(reference)]),
        "assets" := Dir(map["example_asset.txt" := File(asset)])]
  }

  /**
   * The scaffolding steps in order. A missing template stops the steps
   * where it is needed: the directories already made stay, including the
   * empty one the missing file was meant for.
   */
  function Scaffold(t: Templates, fill: string -> string): (r: (map<string, Node>, Option<string>))
    ensures r.1.None? <==> AllTemplates(t)
    ensures AllTemplates(t) ==> r.0 == Layout(fill(t.skill.value), fill(t.script.value), fill(t.reference.value), t.asset.value)
    ensures ManifestName in r.0 <==> t.skill.Some?
    ensures t.skill.None? ==> r.0 == map[]
  {
    match t.skill
    case None => (map[], Some("skill"))
    case Some(skill) =>
      var withManifest := map[ManifestName := File(fill(skill))];
      match t.script
      case None => (withManifest["scripts" := Dir(map[])], Some("script"))
      case Some(script) =>
        var withScripts := withManifest["scripts" := Dir(map["example.ts" := File(fill(script))])];
        match t.reference
        case None => (withScripts["references" := Dir(map[])], Some("reference"))
        case Some(reference) =>
          var withReferences := withScripts["references" := Dir(map["api_reference.md" := File(fill(reference))])];
          match t.asset
          case None => (withReferences["assets" := Dir(map[])], Some("asset"))
          case Some(asset) => (withReferences["assets" := Dir(map["example_asset.txt" := File(asset)])], None)
  }

  datatype InitError = InitBadName(rule: NameRule) | InitExists | TemplateMissing(template: string)

  datatype InitResult = InitResult(outcome: Result<(), InitError>, base: map<string, Node>)

  /** The checks `init` makes before it creates anything: the name, then the target's absence. */
  function InitPrecheck(name: string, base: map<string, Node>): (r: Option<InitError>)
    ensures r.None? <==> WellFormedName(name) && name !in base
    ensures !WellFormedName(name) ==> r == Some(InitBadName(CheckName(name).value))
    ensures WellFormedName(name) && name in base ==> r == Some(InitExists)
  {
    match CheckName(name)
    case Some(rule) => Some(InitBadName(rule))
    case None => if name in base then Some(InitExists) else None
  }

  /**
   * `initSkill` as written: after the checks pass, the directory is made and
   * filled step by step; a failing step reports an error but the partly
   * filled directory is not removed.
   */
  function InitSkill(name: string, base: map<string, Node>, t: Templates, fill: string -> string): (r: InitResult)
    ensures r.outcome.Success? <==> WellFormedName(name) && name !in base && AllTemplates(t)
    ensures InitPrecheck(name, base).Some? ==> r == InitResult(Failure(InitPrecheck(name, base).value), base)
    ensures forall k :: k in base ==> k in r.base && r.base[k] == base[k]
    ensures forall k :: k in r.base ==> k in base || k == name
    ensures r.outcome.Success? ==> name in r.base && HasManifest(r.base[name])
  {
    match InitPrecheck(name, base)
    case Some(error) => InitResult(Failure(error), base)
    case None =>
      var (contents, missing) := Scaffold(t, fill);
      var base' := base[name := Dir(contents)];
      match missing
      case None => InitResult(Success(()), base')
      case Some(template) => InitResult(Failure(TemplateMissing(template)), base')
  }

  /** With every template readable, `init` creates the manifest and one example file in each of the three subdirectories. */
  lemma InitCreatesStructure(name: string, base: map<string, Node>, t: Templates, fill: string -> string)
    requires WellFormedName(name) && name !in base && AllTemplates(t)
    ensures var r := InitSkill(name, base, t, fill);
            r.outcome.Success? && name in r.base
            && Resolve(r.base[name], [ManifestName]) == Some(File(fill(t.skill.value)))
            && Resolve(r.base[name], ["scripts", "example.ts"]) == Some(File(fill(t.script.value)))
            && Resolve(r.base[name], ["references", "api_reference.md"]) == Some(File(fill(t.reference.value)))
            && Resolve(r.base[name], ["assets", "example_asset.txt"]) == Some(File(t.asset.value))
  {
    var r := InitSkill(name, base, t, fill);
    var layout := Layout(fill(t.skill.value), fill(t.script.value), fill(t.reference.value), t.asset.value);
    assert r.base[name] == Dir(layout);
    assert ["scripts", "example.ts"][1..] == ["example.ts"];
    assert ["references", "api_reference.md"][1..] == ["api_reference.md"];
    assert ["assets", "example_asset.txt"][1..] == ["example_asset.txt"];
  }

  /**
   * A template that cannot be read leaves a directory behind, and that
   * directory makes every later `init` of the same name fail as existing.
   */
  lemma InitLeavesPartialDirectory(name: string, base: map<string, Node>, t: Templates, fill: string -> string, retry: Templates)
    requires WellFormedName(name) && name !in base
    requires t.skill.Some? && t.asset.None?
    ensures InitSkill(name, base, t, fill).outcome.Failure?
    ensures name in InitSkill(name, base, t, fill).base
    ensures HasManifest(InitSkill(name, base, t, fill).base[name])
    ensures InitSkill(name, InitSkill(name, base, t, fill).base, retry, fill).outcome == Failure(InitExists)
  {
    var first := InitSkill(name, base, t, fill);
    assert first.base == base[name := Dir(Scaffold(t, fill).0)];
  }

  /** `init` with the clean-up `init --fork` performs: a failed scaffold removes the directory again. */
  function InitSkillAtomic(name: string, base: map<string, Node>, t: Templates, fill: string -> string): (r: InitResult)
    ensures r.outcome.Failure? ==> r.base == base
    ensures r.outcome.Success? ==> r.base == base[name := Dir(Scaffold(t, fill).0)]
  {
    var written := InitSkill(name, base, t, fill);
    if written.outcome.Success? then written else InitResult(written.outcome, base)
  }

  /** The corrected `init` reports exactly what the written one reports, and a failure of it can be retried. */
  lemma InitAtomicAgrees(name: string, base: map<string, Node>, t: Templates, fill: string -> string, retry: Templates)
    ensures InitSkillAtomic(name, base, t, fill).outcome == InitSkill(name, base, t, fill).outcome
    ensures InitSkill(name, base, t, fill).outcome.Success? ==> InitSkillAtomic(name, base, t, fill) == InitSkill(name, base, t, fill)
    ensures InitSkillAtomic(name, base, t, fill).outcome.Failure? ==>
              InitSkill(name, InitSkillAtomic(name, base, t, fill).base, retry, fill) == InitSkill(name, base, retry, fill)
  {
  }

  // ---------------------------------------------------------------------
  // init --fork
  // ---------------------------------------------------------------------

  datatype ForkError =
    | ForkBadName(rule: NameRule)
    | InvalidGitHubUrl
    | ForkExists
    | FetchFailed(status: int)
    | ExtractFailed(stderr: string)
    | ForkThrew(message: string)      // the request, reading the body or writing the temporary file threw

  /** A successful fork, and whether the repository brought a `SKILL.md` (which only changes the advice printed). */
  datatype Forked = Forked(source: RepoRef, manifestPresent: bool)

  datatype ForkResult = ForkResult(outcome: Result<Forked, ForkError>, base: map<string, Node>, requests: seq<string>)

  /** The one archive `init --fork` downloads: the `main` branch. */
  function MainArchiveUrl(r: RepoRef): string {
    BranchArchiveUrl(r.user, r.repo, "main")
  }

  /** The checks `init --fork` makes before any request: the name, the URL, then the target's absence. */
  function ForkPrecheck(name: string, base: map<string, Node>, url: string): (r: Result<RepoRef, ForkError>)
    ensures r.Success? <==> WellFormedName(name) && ParseForkUrl(url).Some? && name !in base
    ensures r.Success? ==> r.value == ParseForkUrl(url).value
    ensures !WellFormedName(name) ==> r == Failure(ForkBadName(CheckName(name).value))
    ensures WellFormedName(name) && ParseForkUrl(url).None? ==> r == Failure(InvalidGitHubUrl)
    ensures WellFormedName(name) && ParseForkUrl(url).Some? && name in base ==> r == Failure(ForkExists)
  {
    match CheckName(name)
    case Some(rule) => Failure(ForkBadName(rule))
    case None =>
      match ParseForkUrl(url)
      case None => Failure(InvalidGitHubUrl)
      case Some(source) => if name in base then Failure(ForkExists) else Success(source)
  }

  /**
   * `forkSkill`. After the checks one request is made; the directory is
   * created only once the response is ok and is removed again on every
   * later failure, so a failed fork leaves the base path as it was.
   */
  function ForkSkill(name: string, base: map<string, Node>, url: string, fetch: string -> Response): (r: ForkResult)
    ensures ForkPrecheck(name, base, url).Failure? ==>
              r == ForkResult(Failure(ForkPrecheck(name, base, url).error), base, [])
    ensures ForkPrecheck(name, base, url).Success? ==> r.requests == [MainArchiveUrl(ForkPrecheck(name, base, url).value)]
    ensures r.outcome.Failure? ==> r.base == base
    ensures r.outcome.Success? <==>
              ForkPrecheck(name, base, url).Success?
              && var response := fetch(MainArchiveUrl(ForkPrecheck(name, base, url).value));
                 response.Http? && IsOk(response.status) && response.body.Archive?
    ensures r.outcome.Success? ==>
              r.outcome.value.source == ParseForkUrl(url).value
              && r.base == base[name := Dir(fetch(r.requests[0]).body.entries)]
              && (r.outcome.value.manifestPresent <==> HasManifest(r.base[name]))
  {
    match ForkPrecheck(name, base, url)
    case Failure(error) => ForkResult(Failure(error), base, [])
    case Success(source) =>
      var request := MainArchiveUrl(source);
      var outcome :=
        match fetch(request)
        case NetworkError(message) => Failure(ForkThrew(message))
        case Http(status, body) =>
          if !IsOk(status) then Failure(FetchFailed(status))
          else
            match body
            case Archive(entries) => Success(Forked(source, ManifestName in entries))
            case Corrupt(stderr) => Failure(ExtractFailed(stderr))
            case Unreadable(message) => Failure(ForkThrew(message));
      var base' := if outcome.Success? then base[name := Dir(fetch(request).body.entries)] else base;
      ForkResult(outcome, base', [request])
  }

  /** A fork never overwrites: after it succeeds, neither `init` nor a second fork of the same name can proceed. */
  lemma ForkThenRecreateRefused(name: string, base: map<string, Node>, url: string, fetch: string -> Response,
                                t: Templates, fill: string -> string, url2: string)
    requires ForkSkill(name, base, url, fetch).outcome.Success?
    ensures name !in base
    ensures InitSkill(name, ForkSkill(name, base, url, fetch).base, t, fill).outcome == Failure(InitExists)
    ensures var again := ForkSkill(name, ForkSkill(name, base, url, fetch).base, url2, fetch);
            again.outcome.Failure? && again.requests == []
  {
    var r := ForkSkill(name, base, url, fetch);
    assert ForkPrecheck(name, base, url).Success?;
    assert name in r.base;
  }
}
