/**
 * Resolving a remote source. `add` takes a tree URL
 * `https://github.com/<user>/<repo>/tree/<ref>[/<subpath>]` whose ref is a
 * single path segment; `init --fork` takes a plain repository URL, with or
 * without `.git` and trailing path. Archive download is a parameter of the
 * model: `fetch` maps a URL to the response the network would give.
 */
module Remote {
  import opened Wrappers
  import opened Text
  import opened Fs

  const GitHubPrefix: string := "https://github.com/"

  /** A non-empty path segment: what `[^/]+` matches. */
  predicate Segment(s: string) {
    s != [] && '/' !in s
  }

  lemma SlashAt(s: string, i: nat)
    ensures OccursAt(s, "/", i) <==> i < |s| && s[i] == '/'
  {
    if i < |s| {
      assert s[i..i + 1] == [s[i]];
    }
  }

  /** The text before and after the first `/`. */
  function SplitAtSlash(s: string): (r: Option<(string, string)>)
    ensures r.None? <==> '/' !in s
    ensures r.Some? ==> s == r.value.0 + "/" + r.value.1 && '/' !in r.value.0
  {
    match FindFrom(s, "/", 0)
    case None =>
      assert forall i :: 0 <= i < |s| ==> s[i] != '/' by {
        forall i | 0 <= i < |s| {
          SlashAt(s, i);
        }
      }
      None
    case Some(i) =>
      SlashAt(s, i);
      assert forall j :: 0 <= j < i ==> s[j] != '/' by {
        forall j | 0 <= j < i {
          SlashAt(s, j);
        }
      }
      assert s == s[..i] + "/" + s[i + 1..] by {
        assert s[..i + 1] == s[..i] + "/";
      }
      Some((s[..i], s[i + 1..]))
  }

  lemma SplitAtSlashOf(head: string, tail: string)
    requires '/' !in head
    ensures SplitAtSlash(head + "/" + tail) == Some((head, tail))
  {
    var s := head + "/" + tail;
    SlashAt(s, |head|);
    forall k | 0 <= k < |head|
      ensures !OccursAt(s, "/", k)
    {
      SlashAt(s, k);
      assert s[k] == head[k];
    }
    assert FindFrom(s, "/", 0) == Some(|head|);
    assert s[..|head|] == head;
    assert s[|head| + 1..] == tail;
  }

  /** `([^/]+)/`: a non-empty leading segment and the text after its slash. */
  function Lead(s: string): (r: Option<(string, string)>)
    ensures r.Some? ==> Segment(r.value.0) && s == r.value.0 + "/" + r.value.1
  {
    match SplitAtSlash(s)
    case None => None
    case Some((head, tail)) => if head == [] then None else Some((head, tail))
  }

  lemma LeadOf(head: string, tail: string)
    requires Segment(head)
    ensures Lead(head + "/" + tail) == Some((head, tail))
  {
    SplitAtSlashOf(head, tail);
  }

  // ---------------------------------------------------------------------
  // Tree URLs (`add`)
  // ---------------------------------------------------------------------

  /** A parsed tree URL; `subpath` is the text after `<ref>/`, empty when there is none. */
  datatype TreeRef = TreeRef(user: string, repo: string, ref: string, subpath: string)

  predicate WellFormedTreeRef(t: TreeRef) {
    Segment(t.user) && Segment(t.repo) && Segment(t.ref) && NoLineTerminator(t.subpath)
  }

  /** A subpath as it appears in a URL: with its leading slash, or nothing. */
  function Slashed(subpath: string): string {
    if subpath == [] then "" else "/" + subpath
  }

  function TreeUrlWith(user: string, repo: string, refAndPath: string): string {
    GitHubPrefix + (user + "/" + (repo + "/" + ("tree/" + refAndPath)))
  }

  function TreeUrl(t: TreeRef): string {
    TreeUrlWith(t.user, t.repo, t.ref + Slashed(t.subpath))
  }

  /** `([^/]+)(/.*)?$` after `tree/`: the ref and the subpath without its leading slash. */
  function RefAndSubpath(s: string): (r: Option<(string, string)>)
    ensures r.Some? ==> Segment(r.value.0) && NoLineTerminator(r.value.1)
    ensures r.Some? ==> s == r.value.0 + Slashed(r.value.1) || (r.value.1 == [] && s == r.value.0 + "/")
  {
    match SplitAtSlash(s)
    case None => if s == [] then None else Some((s, ""))
    case Some((ref, tail)) =>
      if ref == [] || !NoLineTerminator(tail) then None
      else
        assert tail != [] ==> Slashed(tail) == "/" + tail;
        Some((ref, tail))
  }

  lemma RefAndSubpathOf(ref: string, tail: string)
    requires Segment(ref)
    requires tail == [] || (tail[0] == '/' && NoLineTerminator(tail[1..]))
    ensures RefAndSubpath(ref + tail) == Some((ref, if tail == [] then [] else tail[1..]))
  {
    if tail == [] {
      assert ref + tail == ref;
      assert SplitAtSlash(ref).None?;
    } else {
      var sub := tail[1..];
      assert ref + tail == ref + "/" + sub;
      SplitAtSlashOf(ref, sub);
      assert RefAndSubpath(ref + "/" + sub) == Some((ref, sub));
    }
  }

  /**
   * `^https://github\.com/([^/]+)/([^/]+)/tree/([^/]+)(/.*)?$`, then the
   * leading `/` of the optional group removed. The ref stops at the first `/`
   * after `tree/`, so a branch name containing `/` cannot be expressed.
   */
  function ParseTreeUrl(url: string): (r: Option<TreeRef>)
    ensures r.Some? ==> WellFormedTreeRef(r.value)
    ensures r.Some? ==> url == TreeUrl(r.value) || (r.value.subpath == [] && url == TreeUrlWith(r.value.user, r.value.repo, r.value.ref + "/"))
  {
    if !StartsWith(url, GitHubPrefix) then None
    else
      var rest := url[|GitHubPrefix|..];
      assert url == GitHubPrefix + rest;
      match Lead(rest)
      case None => None
      case Some((user, r1)) =>
        match Lead(r1)
        case None => None
        case Some((repo, r2)) =>
          match AfterTree(r2)
          case None => None
          case Some((ref, subpath)) =>
            assert url == TreeUrlWith(user, repo, r2[5..]);
            Some(TreeRef(user, repo, ref, subpath))
  }

  /** `tree/([^/]+)(/.*)?$`. */
  function AfterTree(s: string): (r: Option<(string, string)>)
    ensures r.Some? ==> StartsWith(s, "tree/") && s == "tree/" + s[5..]
    ensures r.Some? ==> Segment(r.value.0) && NoLineTerminator(r.value.1)
    ensures r.Some? ==> s[5..] == r.value.0 + Slashed(r.value.1) || (r.value.1 == [] && s[5..] == r.value.0 + "/")
  {
    if !StartsWith(s, "tree/") then None
    else
      assert s == "tree/" + s[5..];
      RefAndSubpath(s[5..])
  }

  /** Every well-formed tree reference is recovered from its URL, and from that URL with a trailing `/`. */
  lemma ParseTreeUrlRoundTrip(t: TreeRef)
    requires WellFormedTreeRef(t)
    ensures ParseTreeUrl(TreeUrl(t)) == Some(t)
    ensures t.subpath == [] ==> ParseTreeUrl(TreeUrlWith(t.user, t.repo, t.ref + "/")) == Some(t)
  {
    RoundTripWithTail(t, Slashed(t.subpath));
    if t.subpath == [] {
      RoundTripWithTail(t, "/");
    } else {
      assert Slashed(t.subpath)[1..] == t.subpath;
    }
  }

  lemma RoundTripWithTail(t: TreeRef, tail: string)
    requires WellFormedTreeRef(t)
    requires tail == [] || (tail[0] == '/' && NoLineTerminator(tail[1..]))
    requires t.subpath == (if tail == [] then [] else tail[1..])
    ensures ParseTreeUrl(TreeUrlWith(t.user, t.repo, t.ref + tail)) == Some(t)
  {
    var r2 := "tree/" + (t.ref + tail);
    var r1 := t.repo + "/" + r2;
    var rest := t.user + "/" + r1;
    var url := TreeUrlWith(t.user, t.repo, t.ref + tail);
    assert url == GitHubPrefix + rest;
    assert url[|GitHubPrefix|..] == rest;
    LeadOf(t.user, r1);
    LeadOf(t.repo, r2);
    assert r2[..5] == "tree/" && r2[5..] == t.ref + tail;
    RefAndSubpathOf(t.ref, tail);
  }

  /** `subpath.split('/').filter(Boolean)`: the non-empty segments, in order. */
  function Segments(s: string): (r: seq<string>)
    ensures forall i :: 0 <= i < |r| ==> Segment(r[i])
    decreases |s|
  {
    match SplitAtSlash(s)
    case None => if s == [] then [] else [s]
    case Some((head, tail)) => (if head == [] then [] else [head]) + Segments(tail)
  }

  /** Splitting a path joined from segments gives the segments back. */
  lemma {:induction false} SegmentsOfJoin(segs: seq<string>)
    requires forall i :: 0 <= i < |segs| ==> Segment(segs[i])
    ensures Segments(Join(segs, "/")) == segs
  {
    if segs == [] {
    } else if |segs| == 1 {
      SegmentsOfSegment(segs[0]);
    } else {
      SegmentsOfJoin(segs[1..]);
      SegmentsOfJoinStep(segs);
    }
  }

  /** One more segment in front: what the recursive case of `SegmentsOfJoin` needs. */
  lemma SegmentsOfJoinStep(segs: seq<string>)
    requires |segs| >= 2 && Segment(segs[0])
    requires Segments(Join(segs[1..], "/")) == segs[1..]
    ensures Segments(Join(segs, "/")) == segs
  {
    var rest := Join(segs[1..], "/");
    assert Join(segs, "/") == segs[0] + "/" + rest;
    SegmentsCons(segs[0], rest);
    assert segs == [segs[0]] + segs[1..];
  }

  lemma SegmentsOfSegment(s: string)
    requires Segment(s)
    ensures Segments(s) == [s]
  {
  }

  lemma SegmentsCons(head: string, tail: string)
    requires Segment(head)
    ensures Segments(head + "/" + tail) == [head] + Segments(tail)
  {
    SplitAtSlashOf(head, tail);
  }

  /** Empty segments (doubled or leading slashes) are dropped. */
  lemma {:induction false} SegmentsSkipSlash(s: string)
    ensures Segments("/" + s) == Segments(s)
  {
    SplitAtSlashOf("", s);
    assert "" + "/" + s == "/" + s;
  }

  /** The directory name a single skill is installed under: the last subpath segment, or the repository name. */
  function InstallName(t: TreeRef): (r: string)
    ensures Segments(t.subpath) == [] ==> r == t.repo
    ensures Segments(t.subpath) != [] ==> r == Segments(t.subpath)[|Segments(t.subpath)| - 1]
    ensures WellFormedTreeRef(t) ==> Segment(r)
  {
    var segs := Segments(t.subpath);
    if segs == [] then t.repo else segs[|segs| - 1]
  }

  /** The example from the tool's help: `.claude/skills/my-skill` installs as `my-skill`. */
  lemma InstallNameExample(user: string, repo: string, ref: string)
    ensures InstallName(TreeRef(user, repo, ref, ".claude/skills/my-skill")) == "my-skill"
  {
    var segs := [".claude", "skills", "my-skill"];
    assert Join(segs, "/") == ".claude/skills/my-skill" by {
      assert Join(segs[2..], "/") == "my-skill";
      assert Join(segs[1..], "/") == "skills" + "/" + "my-skill";
    }
    assert forall i :: 0 <= i < |segs| ==> Segment(segs[i]) by {
      assert '/' !in segs[0] && '/' !in segs[1] && '/' !in segs[2];
    }
    SegmentsOfJoin(segs);
  }

  // ---------------------------------------------------------------------
  // Plain repository URLs (`init --fork`)
  // ---------------------------------------------------------------------

  datatype RepoRef = RepoRef(user: string, repo: string)

  /** What `[^/\s]` matches. */
  predicate IsRepoChar(c: char) {
    c != '/' && !IsJsWhitespace(c)
  }

  /** `(?:\/.*)?$`: nothing, or a `/` followed by text without line terminators. */
  predicate TailOk(t: string) {
    t == [] || (t[0] == '/' && NoLineTerminator(t[1..]))
  }

  /** `(?:\.git)?(?:\/.*)?$`. */
  predicate SuffixOk(t: string) {
    (StartsWith(t, ".git") && TailOk(t[4..])) || TailOk(t)
  }

  /** The lazy repository group `([^/\s]+?)` can stop after `k` characters of `rest`. */
  predicate RepoEndsAt(rest: string, k: nat) {
    1 <= k <= |rest| && (forall i :: 0 <= i < k ==> IsRepoChar(rest[i])) && SuffixOk(rest[k..])
  }

  /** The first place at or after `k` where the repository group can stop. */
  function ScanRepoEnd(rest: string, k: nat): (r: Option<nat>)
    requires 1 <= k
    requires forall i :: 0 <= i < k - 1 && i < |rest| ==> IsRepoChar(rest[i])
    decreases |rest| - k
    ensures r.Some? ==> k <= r.value && RepoEndsAt(rest, r.value)
    ensures r.Some? ==> forall j :: k <= j < r.value ==> !RepoEndsAt(rest, j)
    ensures r.None? ==> forall j :: k <= j ==> !RepoEndsAt(rest, j)
  {
    if k > |rest| || !IsRepoChar(rest[k - 1]) then None
    else if SuffixOk(rest[k..]) then Some(k)
    else ScanRepoEnd(rest, k + 1)
  }

  /**
   * `^https://github\.com/([^/]+)/([^/\s]+?)(?:\.git)?(?:\/.*)?$`: the
   * repository is the SHORTEST run of non-slash, non-space characters after
   * which the rest of the URL is an optional `.git` and an optional `/...`.
   */
  function ParseForkUrl(url: string): (r: Option<RepoRef>)
    ensures r.Some? ==> Segment(r.value.user) && RepoName(r.value.repo)
    ensures r.Some? ==>
              var head := GitHubPrefix + r.value.user + "/" + r.value.repo;
              StartsWith(url, head) && SuffixOk(url[|head|..])
  {
    if !StartsWith(url, GitHubPrefix) then None
    else
      match Lead(url[|GitHubPrefix|..])
      case None => None
      case Some((user, rest)) =>
        match ScanRepoEnd(rest, 1)
        case None => None
        case Some(k) =>
          ForkHead(url, user, rest, k);
          Some(RepoRef(user, rest[..k]))
  }

  /** Cutting the text after the user at `k` splits the URL into its head and what follows the repository. */
  lemma ForkHead(url: string, user: string, rest: string, k: nat)
    requires StartsWith(url, GitHubPrefix) && url[|GitHubPrefix|..] == user + "/" + rest && k <= |rest|
    ensures var head := GitHubPrefix + user + "/" + rest[..k];
      StartsWith(url, head) && url[|head|..] == rest[k..]
  {
    var head := GitHubPrefix + user + "/" + rest[..k];
    assert url == GitHubPrefix + url[|GitHubPrefix|..];
    assert rest == rest[..k] + rest[k..];
    assert url == head + rest[k..];
  }

  /** What `([^/\s]+?)` can match: a non-empty run of repository characters. */
  predicate RepoName(r: string) {
    r != [] && forall i :: 0 <= i < |r| ==> IsRepoChar(r[i])
  }

  /**
   * The suffixes after the repository name that the lemmas below consider:
   * an optional path, or `.git` and an optional path.
   */
  predicate RepoSuffix(more: string) {
    TailOk(more) || (|more| >= 4 && more[..4] == ".git" && TailOk(more[4..]))
  }

  /** Within `r + more`, the lazy group cannot stop before the end of `r`. */
  lemma {:induction false} NoEarlierRepoEnd(r: string, more: string, j: nat)
    requires RepoName(r) && 1 <= j < |r| && RepoSuffix(more)
    requires TailOk(more) ==> !EndsWith(r, ".git")
    ensures !RepoEndsAt(r + more, j)
  {
    var rest := r + more;
    assert rest[j] == r[j];
    assert more != [] ==> more[0] == '/' || more[0] == '.';
    if j + 4 < |r| {
      assert rest[j + 4] == r[j + 4];
    } else if j + 4 == |r| {
      assert rest[j..j + 4] == r[|r| - 4..];
      assert rest[j + 4..] == more;
    } else {
      if more != [] && j + 4 <= |rest| {
        assert rest[j..j + 4][|r| - j] == rest[|r|] == more[0];
      }
    }
  }

  /** A repository URL ending in `.git` (optionally followed by a path) names the repository without `.git`. */
  lemma ForkUrlStripsGit(user: string, repo: string, tail: string)
    requires Segment(user) && RepoName(repo) && TailOk(tail)
    ensures ParseForkUrl(GitHubPrefix + user + "/" + repo + ".git" + tail) == Some(RepoRef(user, repo))
  {
    var more := ".git" + tail;
    assert more[..4] == ".git" && more[4..] == tail;
    assert GitHubPrefix + user + "/" + repo + ".git" + tail == GitHubPrefix + user + "/" + repo + more;
    ForkUrlOf(user, repo, more);
  }

  /** A repository URL without `.git` names the repository as written. */
  lemma ForkUrlPlain(user: string, repo: string, tail: string)
    requires Segment(user) && RepoName(repo) && TailOk(tail) && !EndsWith(repo, ".git")
    ensures ParseForkUrl(GitHubPrefix + user + "/" + repo + tail) == Some(RepoRef(user, repo))
  {
    ForkUrlOf(user, repo, tail);
  }

  lemma ForkUrlOf(user: string, repo: string, more: string)
    requires Segment(user) && RepoName(repo) && RepoSuffix(more)
    requires TailOk(more) ==> !EndsWith(repo, ".git")
    ensures ParseForkUrl(GitHubPrefix + user + "/" + repo + more) == Some(RepoRef(user, repo))
  {
    var rest := repo + more;
    var url := GitHubPrefix + user + "/" + repo + more;
    assert url == GitHubPrefix + (user + "/" + rest);
    assert url[|GitHubPrefix|..] == user + "/" + rest;
    LeadOf(user, rest);
    assert rest[|repo|..] == more;
    assert RepoEndsAt(rest, |repo|) by {
      forall i | 0 <= i < |repo| ensures IsRepoChar(rest[i]) {
        assert rest[i] == repo[i];
      }
      assert TailOk(more) || StartsWith(more, ".git");
    }
    forall j | 1 <= j < |repo|
      ensures !RepoEndsAt(rest, j)
    {
      NoEarlierRepoEnd(repo, more, j);
    }
    assert ScanRepoEnd(rest, 1) == Some(|repo|);
    assert rest[..|repo|] == repo;
  }

  // ---------------------------------------------------------------------
  // Archive download
  // ---------------------------------------------------------------------

  /** An archive body as the tool experiences it: the tree `tar --strip-components=1` would produce, or a failure. */
  datatype Body =
    | Archive(entries: map<string, Node>)
    | Corrupt(stderr: string)       // tar exits unsuccessfully
    | Unreadable(message: string)   // reading the body or writing the temporary file throws

  datatype Response = NetworkError(message: string) | Http(status: int, body: Body)

  /** `response.ok`. */
  predicate IsOk(status: int) {
    200 <= status <= 299
  }

  function BranchArchiveUrl(user: string, repo: string, ref: string): string {
    GitHubPrefix + user + "/" + repo + "/archive/refs/heads/" + ref + ".tar.gz"
  }

  function TagArchiveUrl(user: string, repo: string, ref: string): string {
    GitHubPrefix + user + "/" + repo + "/archive/refs/tags/" + ref + ".tar.gz"
  }

  predicate IsNotFound(r: Response) {
    r.Http? && r.status == 404
  }

  datatype Fetched = Fetched(response: Response, requests: seq<string>)

  /**
   * The branch archive is requested first; the tag archive only when the
   * branch answer is a 404. Any other answer, good or bad, is final.
   */
  function FetchArchive(t: TreeRef, fetch: string -> Response): (r: Fetched)
    ensures |r.requests| >= 1 && r.requests[0] == BranchArchiveUrl(t.user, t.repo, t.ref)
    ensures |r.requests| == 2 <==> IsNotFound(fetch(BranchArchiveUrl(t.user, t.repo, t.ref)))
    ensures |r.requests| == 2 ==> r.requests[1] == TagArchiveUrl(t.user, t.repo, t.ref)
    ensures |r.requests| <= 2
    ensures r.response == fetch(r.requests[|r.requests| - 1])
  {
    var branch := BranchArchiveUrl(t.user, t.repo, t.ref);
    var first := fetch(branch);
    if first.Http? && !IsOk(first.status) && first.status == 404 then
      var tag := TagArchiveUrl(t.user, t.repo, t.ref);
      Fetched(fetch(tag), [branch, tag])
    else Fetched(first, [branch])
  }

  /** A ref that is only a tag is still fetched: the branch 404 is followed by a successful tag download. */
  lemma TagFallback(t: TreeRef, fetch: string -> Response, body: Body)
    requires fetch(BranchArchiveUrl(t.user, t.repo, t.ref)).Http?
    requires fetch(BranchArchiveUrl(t.user, t.repo, t.ref)).status == 404
    requires fetch(TagArchiveUrl(t.user, t.repo, t.ref)) == Http(200, body)
    ensures FetchArchive(t, fetch).response == Http(200, body)
  {
  }
}
