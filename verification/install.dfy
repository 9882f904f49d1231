/**
 * The `add` command: download the archive a tree URL names, find the skill
 * or skills at its subpath, and move each into the destination directory
 * without ever replacing an existing entry.
 */
module Install {
  import opened Wrappers
  import opened Order
  import opened Fs
  import opened Remote

  // ---------------------------------------------------------------------
  // Locating skills inside the extracted archive
  // ---------------------------------------------------------------------

  /** What the subpath of the extracted tree turns out to be. */
  datatype Located =
    | Absent                                                    // `exists(targetDir)` is false
    | FileTarget                                                // a file: listing it throws, and the error is caught
    | SingleSkill(source: Node)                                 // `SKILL.md` directly at the target
    | SkillSet(children: map<string, Node>, candidates: set<string>)
    | NoSkills                                                  // a directory without any skill

  /** The direct subdirectories that hold a `SKILL.md`. */
  function Candidates(children: map<string, Node>): (r: set<string>)
    ensures forall n :: n in r <==> n in children && children[n].Dir? && ManifestName in children[n].children
  {
    set n | n in children && HasManifest(children[n])
  }

  function Locate(root: Node, segments: seq<string>): (r: Located)
    ensures r.Absent? <==> Resolve(root, segments).None?
    ensures r.FileTarget? <==> Resolve(root, segments).Some? && Resolve(root, segments).value.File?
    ensures r.SingleSkill? <==> Resolve(root, segments).Some? && HasManifest(Resolve(root, segments).value)
    ensures r.SingleSkill? ==> Resolve(root, segments) == Some(r.source)
    ensures r.SkillSet? ==> Resolve(root, segments) == Some(Dir(r.children)) && ManifestName !in r.children
    ensures r.SkillSet? ==> r.candidates != {} && r.candidates == Candidates(r.children)
    ensures r.NoSkills? <==> Resolve(root, segments).Some? && Resolve(root, segments).value.Dir?
                               && ManifestName !in Resolve(root, segments).value.children
                               && Candidates(Resolve(root, segments).value.children) == {}
  {
    match Resolve(root, segments)
    case None => Absent
    case Some(File(_)) => FileTarget
    case Some(Dir(children)) =>
      if ManifestName in children then SingleSkill(Dir(children))
      else
        var candidates := Candidates(children);
        if candidates == {} then NoSkills else SkillSet(children, candidates)
  }

  // ---------------------------------------------------------------------
  // Installing
  // ---------------------------------------------------------------------

  /** How many of `names` already exist in `dest`. */
  function CountPresent(names: seq<string>, dest: map<string, Node>): (r: nat)
    ensures r <= |names|
  {
    if names == [] then 0
    else (if names[0] in dest then 1 else 0) + CountPresent(names[1..], dest)
  }

  lemma {:induction false} CountPresentIgnores(names: seq<string>, dest: map<string, Node>, n: string, v: Node)
    requires n !in names
    ensures CountPresent(names, dest[n := v]) == CountPresent(names, dest)
  {
    if names != [] {
      CountPresentIgnores(names[1..], dest, n, v);
    }
  }

  datatype Batch = Batch(dest: map<string, Node>, installed: seq<string>, skipped: seq<string>)

  /**
   * `installSkill` for each name in turn: a name already present in the
   * destination is skipped and leaves it unchanged; any other is moved in.
   */
  function InstallBatch(dest: map<string, Node>, from: map<string, Node>, names: seq<string>): (r: Batch)
    requires StrictlySorted(names)
    requires forall n :: n in names ==> n in from
    ensures StrictlySorted(r.installed) && StrictlySorted(r.skipped)
    ensures forall n :: n in r.installed <==> n in names && n !in dest
    ensures forall n :: n in r.skipped <==> n in names && n in dest
    ensures |r.skipped| == CountPresent(names, dest)
    ensures |r.installed| == |names| - CountPresent(names, dest)
    ensures forall k :: k in r.dest <==> k in dest || k in r.installed
    ensures forall k :: k in dest ==> r.dest[k] == dest[k]
    ensures forall n :: n in r.installed ==> r.dest[n] == from[n]
    decreases |names|
  {
    if names == [] then Batch(dest, [], [])
    else
      var n := names[0];
      HeadBelowTail(names);
      BelowIrreflexive(n);
      assert n !in names[1..];
      if n in dest then
        var rest := InstallBatch(dest, from, names[1..]);
        SortedCons(n, rest.skipped);
        Batch(rest.dest, rest.installed, [n] + rest.skipped)
      else
        var dest' := dest[n := from[n]];
        CountPresentIgnores(names[1..], dest, n, from[n]);
        var rest := InstallBatch(dest', from, names[1..]);
        SortedCons(n, rest.installed);
        Batch(rest.dest, [n] + rest.installed, rest.skipped)
  }

  lemma HeadBelowTail(names: seq<string>)
    requires StrictlySorted(names) && names != []
    ensures StrictlySorted(names[1..])
    ensures forall y :: y in names[1..] ==> Below(names[0], y)
  {
    forall y | y in names[1..]
      ensures Below(names[0], y)
    {
      var j :| 0 <= j < |names[1..]| && names[1..][j] == y;
      assert names[j + 1] == y;
    }
    forall i, j | 0 <= i < j < |names[1..]|
      ensures Below(names[1..][i], names[1..][j])
    {
      assert names[1..][i] == names[i + 1] && names[1..][j] == names[j + 1];
    }
  }

  /** The candidates in sorted order: `skills.sort()` over whatever order the directory listing gave. */
  method SortNames(s: set<string>) returns (r: seq<string>)
    ensures StrictlySorted(r)
    ensures forall x :: x in r <==> x in s
  {
    r := [];
    var rest := s;
    while rest != {}
      invariant rest <= s
      invariant StrictlySorted(r)
      invariant forall x :: x in r <==> x in s && x !in rest
      decreases rest
    {
      var x :| x in rest;
      r := Insert(r, x);
      rest := rest - {x};
    }
  }

  /** The listing order does not matter: any two sorted orders of the same candidates install identically. */
  lemma BatchOrderIndependent(dest: map<string, Node>, from: map<string, Node>, a: seq<string>, b: seq<string>)
    requires StrictlySorted(a) && StrictlySorted(b)
    requires forall n :: n in a <==> n in b
    requires forall n :: n in a ==> n in from
    ensures InstallBatch(dest, from, a) == InstallBatch(dest, from, b)
  {
    SortedUnique(a, b);
  }

  // ---------------------------------------------------------------------
  // The command
  // ---------------------------------------------------------------------

  /** Why `add` resolved to `false` before installing anything. */
  datatype AddFailure =
    | InvalidTreeUrl
    | FetchFailed(status: int)
    | DownloadFailed(message: string)   // reading the body or writing the temporary file threw
    | ExtractFailed(stderr: string)
    | MissingPath
    | TargetIsFile
    | NoSkillsFound

  datatype AddOutcome =
    | Rejected(failure: AddFailure)
    | Threw(message: string)            // a request itself failed; `add` rejects instead of resolving
    | SingleInstall(name: string, added: bool)
    | BatchInstall(installed: seq<string>, skipped: seq<string>)

  /** `add` resolves to `true`: at least one skill was installed. */
  predicate Succeeded(o: AddOutcome) {
    (o.SingleInstall? && o.added) || (o.BatchInstall? && |o.installed| > 0)
  }

  /** The names an outcome reports as installed. */
  function Installed(o: AddOutcome): set<string> {
    match o
    case SingleInstall(name, added) => if added then {name} else {}
    case BatchInstall(installed, _) => set n | n in installed
    case _ => {}
  }

  datatype Plan =
    | Stop(outcome: AddOutcome)
    | One(name: string, source: Node)
    | Many(children: map<string, Node>, candidates: set<string>)

  /** A plan `Prepare` can produce: a stop is a failure, and the candidates are the skill subdirectories. */
  predicate PlanOk(plan: Plan) {
    (plan.Stop? ==> !plan.outcome.SingleInstall? && !plan.outcome.BatchInstall?)
    && (plan.Many? ==> plan.candidates == Candidates(plan.children))
  }

  datatype Prepared = Prepared(plan: Plan, requests: seq<string>)

  /** The extracted archive a tree URL leads to, when the URL parses and the download succeeds. */
  function Downloaded(url: string, fetch: string -> Response): (r: Option<Node>)
    ensures r.Some? ==> ParseTreeUrl(url).Some?
  {
    match ParseTreeUrl(url)
    case None => None
    case Some(t) =>
      var response := FetchArchive(t, fetch).response;
      if response.Http? && IsOk(response.status) && response.body.Archive? then Some(Dir(response.body.entries))
      else None
  }

  /** The node at the URL's subpath inside the downloaded tree, when there is one. */
  function Target(url: string, fetch: string -> Response): (r: Option<Node>)
    ensures r.Some? ==> Downloaded(url, fetch).Some?
  {
    match Downloaded(url, fetch)
    case None => None
    case Some(root) => Resolve(root, Segments(ParseTreeUrl(url).value.subpath))
  }

  /** Everything `add` does before it touches the destination; `PlanOfTarget` says which plan each target gets. */
  function Prepare(url: string, fetch: string -> Response): (r: Prepared)
    ensures ParseTreeUrl(url).None? ==> r == Prepared(Stop(Rejected(InvalidTreeUrl)), [])
    ensures ParseTreeUrl(url).Some? ==> r.requests == FetchArchive(ParseTreeUrl(url).value, fetch).requests
    ensures Downloaded(url, fetch).None? ==> r.plan.Stop?
    ensures PlanOk(r.plan)
    ensures r.plan.One? ==> Downloaded(url, fetch).Some?
                              && r.plan.name == InstallName(ParseTreeUrl(url).value)
                              && Resolve(Downloaded(url, fetch).value, Segments(ParseTreeUrl(url).value.subpath)) == Some(r.plan.source)
                              && HasManifest(r.plan.source)
    ensures r.plan.Many? ==> Downloaded(url, fetch).Some?
                               && Resolve(Downloaded(url, fetch).value, Segments(ParseTreeUrl(url).value.subpath)) == Some(Dir(r.plan.children))
                               && ManifestName !in r.plan.children
                               && r.plan.candidates != {} && r.plan.candidates == Candidates(r.plan.children)
  {
    match ParseTreeUrl(url)
    case None => Prepared(Stop(Rejected(InvalidTreeUrl)), [])
    case Some(t) =>
      var fetched := FetchArchive(t, fetch);
      var plan :=
        match fetched.response
        case NetworkError(message) => Stop(Threw(message))
        case Http(status, body) =>
          if !IsOk(status) then Stop(Rejected(FetchFailed(status)))
          else
            match body
            case Unreadable(message) => Stop(Rejected(DownloadFailed(message)))
            case Corrupt(stderr) => Stop(Rejected(ExtractFailed(stderr)))
            case Archive(entries) =>
              match Locate(Dir(entries), Segments(t.subpath))
              case Absent => Stop(Rejected(MissingPath))
              case FileTarget => Stop(Rejected(TargetIsFile))
              case NoSkills => Stop(Rejected(NoSkillsFound))
              case SingleSkill(source) => One(InstallName(t), source)
              case SkillSet(children, candidates) => Many(children, candidates);
      Prepared(plan, fetched.requests)
  }

  datatype AddReport = AddReport(outcome: AddOutcome, dest: map<string, Node>, requests: seq<string>)

  /**
   * What carrying out `plan` does to the destination: existing entries are
   * never touched, new entries are exactly the installed names, a stop leaves
   * everything as it was, a single skill is added iff its name is free, and a
   * batch installs the free candidates and skips the taken ones, both lists
   * in sorted order.
   */
  ghost predicate Carried(plan: Plan, dest: map<string, Node>, outcome: AddOutcome, dest': map<string, Node>) {
    (forall k :: k in dest ==> k in dest' && dest'[k] == dest[k])
    && (forall k :: k in dest' ==> k in dest || k in Installed(outcome))
    && (forall k :: k in Installed(outcome) ==> k !in dest && k in dest')
    && (plan.Stop? ==> outcome == plan.outcome && dest' == dest)
    && (plan.One? ==> outcome == SingleInstall(plan.name, plan.name !in dest)
                      && (plan.name !in dest ==> plan.name in dest' && dest'[plan.name] == plan.source))
    && (plan.Many? ==>
          outcome.BatchInstall?
          && StrictlySorted(outcome.installed) && StrictlySorted(outcome.skipped)
          && (forall n :: n in outcome.installed <==> n in plan.candidates && n !in dest)
          && (forall n :: n in outcome.skipped <==> n in plan.candidates && n in dest)
          && (forall n :: n in outcome.installed ==> n in dest' && n in plan.children && dest'[n] == plan.children[n]))
  }

  /** The destination side of `add`: what a plan does to the destination directory. */
  method Carry(plan: Plan, dest: map<string, Node>) returns (outcome: AddOutcome, dest': map<string, Node>)
    requires PlanOk(plan)
    ensures Carried(plan, dest, outcome, dest')
    ensures Succeeded(outcome) <==>
              (plan.One? && plan.name !in dest)
              || (plan.Many? && exists n :: n in plan.candidates && n !in dest)
  {
    match plan
    case Stop(o) =>
      outcome, dest' := o, dest;
    case One(name, source) =>
      var added := name !in dest;
      outcome := SingleInstall(name, added);
      dest' := if added then dest[name := source] else dest;
    case Many(children, candidates) =>
      outcome, dest' := CarryBatch(children, candidates, dest);
  }

  /** The batch branch of `Carry`: every candidate in sorted order, each skipped when taken. */
  method CarryBatch(children: map<string, Node>, candidates: set<string>, dest: map<string, Node>)
    returns (outcome: AddOutcome, dest': map<string, Node>)
    requires candidates == Candidates(children)
    ensures Carried(Many(children, candidates), dest, outcome, dest')
    ensures Succeeded(outcome) <==> exists n :: n in candidates && n !in dest
  {
    var names := SortNames(candidates);
    var batch := InstallBatch(dest, children, names);
    outcome, dest' := BatchInstall(batch.installed, batch.skipped), batch.dest;
    assert forall k :: k in Installed(outcome) <==> k in batch.installed;
    assert forall k :: k in dest' ==> k in dest || k in Installed(outcome);
    assert forall k :: k in Installed(outcome) ==> k !in dest && k in dest';
    if exists n :: n in candidates && n !in dest {
      var n :| n in candidates && n !in dest;
      assert n in batch.installed;
    }
    if |batch.installed| > 0 {
      var first := batch.installed[0];
      assert first in batch.installed;
      assert first in candidates && first !in dest;
    }
  }

  /**
   * `addSkill`. A single skill is installed under the last subpath segment
   * (or the repository name); several are installed in sorted order, each
   * skipped when its name is taken; the command succeeds when at least one
   * was installed. No existing destination entry is ever replaced.
   */
  method AddSkill(url: string, dest: map<string, Node>, fetch: string -> Response) returns (report: AddReport)
    ensures report.requests == Prepare(url, fetch).requests
    ensures ParseTreeUrl(url).None? ==> report == AddReport(Rejected(InvalidTreeUrl), dest, [])
    ensures Carried(Prepare(url, fetch).plan, dest, report.outcome, report.dest)
    ensures Succeeded(report.outcome) <==>
              (Prepare(url, fetch).plan.One? && Prepare(url, fetch).plan.name !in dest)
              || (Prepare(url, fetch).plan.Many? && exists n :: n in Prepare(url, fetch).plan.candidates && n !in dest)
    ensures Downloaded(url, fetch).None? ==> !Succeeded(report.outcome) && report.dest == dest
    ensures Target(url, fetch).Some? && HasManifest(Target(url, fetch).value) ==>
              var name := InstallName(ParseTreeUrl(url).value);
              (Succeeded(report.outcome) <==> name !in dest)
              && (name !in dest ==> report.dest == dest[name := Target(url, fetch).value])
    ensures Target(url, fetch).Some? && Target(url, fetch).value.Dir? && !HasManifest(Target(url, fetch).value) ==>
              var candidates := Candidates(Target(url, fetch).value.children);
              (Succeeded(report.outcome) <==> exists n :: n in candidates && n !in dest)
              && (candidates != {} ==>
                    report.outcome.BatchInstall?
                    && (forall n :: n in report.outcome.installed <==> n in candidates && n !in dest)
                    && (forall n :: n in report.outcome.skipped <==> n in candidates && n in dest))
  {
    var prepared := Prepare(url, fetch);
    var outcome, dest' := Carry(prepared.plan, dest);
    report := AddReport(outcome, dest', prepared.requests);
    CarriedFromTarget(url, fetch, dest, outcome, dest');
  }

  /** The destination side of `add` read off the downloaded tree rather than the plan. */
  lemma CarriedFromTarget(url: string, fetch: string -> Response, dest: map<string, Node>, outcome: AddOutcome, dest': map<string, Node>)
    requires Carried(Prepare(url, fetch).plan, dest, outcome, dest')
    requires Succeeded(outcome) <==>
               (Prepare(url, fetch).plan.One? && Prepare(url, fetch).plan.name !in dest)
               || (Prepare(url, fetch).plan.Many? && exists n :: n in Prepare(url, fetch).plan.candidates && n !in dest)
    ensures Downloaded(url, fetch).None? ==> !Succeeded(outcome) && dest' == dest
    ensures Target(url, fetch).Some? && HasManifest(Target(url, fetch).value) ==>
              var name := InstallName(ParseTreeUrl(url).value);
              (Succeeded(outcome) <==> name !in dest)
              && (name !in dest ==> dest' == dest[name := Target(url, fetch).value])
    ensures Target(url, fetch).Some? && Target(url, fetch).value.Dir? && !HasManifest(Target(url, fetch).value) ==>
              var candidates := Candidates(Target(url, fetch).value.children);
              (Succeeded(outcome) <==> exists n :: n in candidates && n !in dest)
              && (candidates != {} ==>
                    outcome.BatchInstall?
                    && (forall n :: n in outcome.installed <==> n in candidates && n !in dest)
                    && (forall n :: n in outcome.skipped <==> n in candidates && n in dest))
  {
    PlanOfTarget(url, fetch);
    var plan := Prepare(url, fetch).plan;
    if plan.One? && plan.name !in dest {
      assert Installed(outcome) == {plan.name};
      AddedOne(dest, dest', plan.name, plan.source);
    }
  }

  /** A map that keeps every old entry and gains only `name := v` is `dest[name := v]`. */
  lemma AddedOne(dest: map<string, Node>, dest': map<string, Node>, name: string, v: Node)
    requires forall k :: k in dest ==> k in dest' && dest'[k] == dest[k]
    requires forall k :: k in dest' ==> k in dest || k == name
    requires name !in dest && name in dest' && dest'[name] == v
    ensures dest' == dest[name := v]
  {
    assert dest'.Keys == dest[name := v].Keys;
  }

  /** A failed request or an unusable body stops `add` with the matching failure. */
  lemma PlanOfResponse(url: string, fetch: string -> Response)
    ensures ParseTreeUrl(url).Some? ==>
              var response := FetchArchive(ParseTreeUrl(url).value, fetch).response;
              (response.NetworkError? ==> Prepare(url, fetch).plan == Stop(Threw(response.message)))
              && (response.Http? && !IsOk(response.status) ==> Prepare(url, fetch).plan == Stop(Rejected(FetchFailed(response.status))))
              && (response.Http? && IsOk(response.status) && response.body.Unreadable? ==>
                    Prepare(url, fetch).plan == Stop(Rejected(DownloadFailed(response.body.message))))
              && (response.Http? && IsOk(response.status) && response.body.Corrupt? ==>
                    Prepare(url, fetch).plan == Stop(Rejected(ExtractFailed(response.body.stderr))))
  {
  }

  /**
   * Once the archive is downloaded, the shape of the target alone decides the
   * plan: the target itself when it holds `SKILL.md`, otherwise its skill
   * subdirectories, and a failure when there are none.
   */
  lemma PlanOfTarget(url: string, fetch: string -> Response)
    ensures Downloaded(url, fetch).Some? ==>
              var target := Target(url, fetch);
              (target.None? ==> Prepare(url, fetch).plan == Stop(Rejected(MissingPath)))
              && (target.Some? && target.value.File? ==> Prepare(url, fetch).plan == Stop(Rejected(TargetIsFile)))
              && (target.Some? && HasManifest(target.value) ==> Prepare(url, fetch).plan == One(InstallName(ParseTreeUrl(url).value), target.value))
              && (target.Some? && target.value.Dir? && !HasManifest(target.value) ==>
                    if Candidates(target.value.children) == {} then Prepare(url, fetch).plan == Stop(Rejected(NoSkillsFound))
                    else Prepare(url, fetch).plan == Many(target.value.children, Candidates(target.value.children)))
  {
  }
}
