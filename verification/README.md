# skillutil core in Dafny

`skillutil` is a command-line tool for managing agent skills. A skill is a directory with a `SKILL.md` manifest: YAML frontmatter between `---` lines, followed by Markdown. The tool exists in two variants, `develop-agent-skills` and `agent-skills`. This project models the skill-handling logic they share.

- **Skill names.** A name is lowercase letters, digits and hyphens. It has no leading, trailing or doubled hyphen and is at most 64 characters long. The three checks run in that order, and the first failure supplies the message. Each variant words the messages its own way.
- **The manifest validator.** It covers:
  - frontmatter extraction with the lazy pattern `^---\n(.*?)\n---`;
  - the closed key set `name, description, license, allowed-tools, metadata`;
  - an early-exit chain of checks: presence, then type, then name format on the trimmed name, then angle brackets and length on the trimmed description.
- **Remote sources.**
  - `add` takes tree URLs `https://github.com/<user>/<repo>/tree/<ref>[/<subpath>]`. It downloads the branch archive first and falls back to the tag archive only after a 404.
  - `init --fork` takes plain repository URLs and drops an optional `.git` suffix.
- **The installer.** When the target holds a `SKILL.md`, that one directory is installed. Otherwise every direct subdirectory holding a `SKILL.md` is installed, in sorted order. A name already taken in the destination is skipped. The command succeeds when at least one skill was installed.
- **Creation.**
  - `init` checks the name, then the target's absence, then scaffolds from templates.
  - `init --fork` creates the directory only after an ok response. It removes the directory again on every later failure.
- **Lifecycle.** `activate` and `deactivate` move a skill between the active root and the deactivated root. Neither ever overwrites.

## Abstractions

- The filesystem is a tree: `Fs.Node` is a file or a directory mapping names to nodes. A directory the tool works in, such as the destination of `add`, the base path of `init` or a skill root, is a `map<string, Node>`.
- The YAML library is a parameter `parse: string -> ParseResult`. It yields the mapping's entries in key order, or an error message.
- The network is a parameter `fetch: string -> Response`.
  - A response is a network error, or an HTTP status with a body.
  - The body stands for what `tar xzf --strip-components=1` would make of it: the extracted tree, a corrupt archive with tar's stderr, or a failure while reading or writing it.
- Template files for `init` are a parameter. Each template is present or unreadable. Interpolation of `{{skill_name}}` and `{{skill_title}}` is the parameter `fill`.
- Strings are `seq<char>` of code points. The model uses:
  - the ECMAScript whitespace and line-terminator sets for `trim`, `\s` and `.`;
  - UTF-16 code units for `.length` (`Text.Utf16Length`).

## Model

| member | source | states |
|---|---|---|
| SkillName.CheckName | agents/claude/skills/develop-agent-skills/scripts/skillutil.ts:109-120 | No rule is broken iff the name is well formed. The charset rule is reported iff a character lies outside `[a-z0-9-]` (the empty name included). Hyphen placement is reported iff the charset is fine and a hyphen leads, trails or doubles. Length is reported iff both pass and the name exceeds 64, and the reported length is the UTF-16 length |
| SkillName.ValidateSkillName | agents/claude/skills/develop-agent-skills/scripts/skillutil.ts:109-120 | Returns null iff the name is well formed. Otherwise it returns the message of the first broken rule, in the order charset, hyphens, length |
| SkillName.CharsetReportedBeforeLength | agents/claude/skills/develop-agent-skills/scripts/skillutil.ts:110-119 | Any name with a character outside the set gets the charset message, however long it is |
| SkillName.HyphensReportedBeforeLength | agents/claude/skills/develop-agent-skills/scripts/skillutil.ts:113-119 | A name of allowed characters that starts with a hyphen gets the hyphen message, however long it is |
| SkillName.InitTestNamesRejected | agents/claude/skills/agent-skills/scripts/test-skillutil.ts:139-156 | `Invalid-Name` breaks the charset rule; `-invalid`, `invalid-` and `invalid--name` break the hyphen rule |
| Frontmatter.Extract | agents/claude/skills/develop-agent-skills/scripts/skillutil.ts:318-325 | No frontmatter iff the text does not start with `---`. A returned block sits between a leading `---\n` and the first later `\n---`, and contains no `\n---` itself |
| Frontmatter.ExtractRender | agents/claude/skills/develop-agent-skills/scripts/skillutil.ts:322-325 | Rendering any block without `\n---`, then extracting it, gives the block back, whatever follows the closing line |
| Frontmatter.NoDashLineNoClosing | agents/claude/skills/develop-agent-skills/scripts/skillutil.ts:322 | A block in which no line starts with `-` can be rendered and extracted |
| Frontmatter.MalformedOpeningIsInvalid | agents/claude/skills/develop-agent-skills/scripts/skillutil.ts:322-325 | A file starting `---\r\n` or `----\n` starts with `---` but has no `---\n` opening, so it reports an invalid format rather than a missing one |
| Manifest.LookupFinds | agents/claude/skills/develop-agent-skills/scripts/skillutil.ts:358-370 | A property read such as `frontmatter.name` returns the value of an entry with that key, the first one. A real object has each key once, so the first one is the only one |
| Manifest.UnexpectedKeyList | agents/claude/skills/develop-agent-skills/scripts/skillutil.ts:345-347 | Lists the disallowed keys in mapping order, each as often as it occurs, and nothing else |
| Manifest.UnexpectedEmptyIff | agents/claude/skills/develop-agent-skills/scripts/skillutil.ts:345-355 | The key check passes iff every key is one of the five allowed |
| Manifest.UnexpectedKeysDependOnKeysOnly | agents/claude/skills/develop-agent-skills/scripts/skillutil.ts:337-355 | The key check reads only the keys, never the values |
| Manifest.OptionalValuesUnchecked | agents/claude/skills/develop-agent-skills/scripts/skillutil.ts:337-394 | With the same keys, name and description, two manifests get the same finding, whatever their license, allowed-tools or metadata values |
| Manifest.RequiredFinding | agents/claude/skills/develop-agent-skills/scripts/skillutil.ts:357-371 | Passes iff name and description are both present, non-null strings |
| Manifest.ContentFinding | agents/claude/skills/develop-agent-skills/scripts/skillutil.ts:373-394 | Passes iff the trimmed name is well formed, and the trimmed description has no `<` or `>` and is at most 1024 UTF-16 units. A bad name is reported with the first rule it breaks, then angle brackets, then an over-long description with its length |
| Manifest.FieldFinding | agents/claude/skills/develop-agent-skills/scripts/skillutil.ts:337-394 | Passes iff the fields conform: allowed keys only, both fields present strings, valid trimmed name, acceptable trimmed description |
| Manifest.FieldChecksInOrder | agents/claude/skills/develop-agent-skills/scripts/skillutil.ts:349-394 | Each finding is reported exactly when every earlier check passes and its own fails, in the order keys, missing name, missing description, name type, description type, name format, angle brackets, description length. The name finding carries the rule the trimmed name breaks, and the length finding the trimmed description's length |
| Manifest.NumericNameWithoutDescription | agents/claude/skills/develop-agent-skills/scripts/skillutil.ts:358-363 | `{name: 5}` with no description reports the missing description before the name's type |
| Manifest.PaddedNameAccepted | agents/claude/skills/develop-agent-skills/scripts/skillutil.ts:374-381 | `" my-skill "` with a padded description passes the field checks |
| Manifest.Validate | agents/claude/skills/develop-agent-skills/scripts/skillutil.ts:306-397 | The verdict is valid iff the manifest exists, has frontmatter, parses and its fields conform. The message is `✅ Skill is valid!` iff the verdict is valid |
| Manifest.ConformsIffNoFinding | agents/claude/skills/develop-agent-skills/scripts/skillutil.ts:306-396 | The first failing check exists iff the manifest does not conform |
| Manifest.MessageIsNotValid | agents/claude/skills/develop-agent-skills/scripts/skillutil.ts:312-394 | No failure message equals the success message, in either variant |
| Manifest.ValidateSkillDir | agents/claude/skills/develop-agent-skills/scripts/skillutil.ts:306-316 | A missing `SKILL.md` gives "SKILL.md not found". A `SKILL.md` that is a directory makes validation throw. A valid verdict needs a `SKILL.md` file |
| Manifest.VariantsAgree | agents/claude/skills/agent-skills/scripts/skillutil.ts:281-299 | The two variants accept exactly the same manifests and report the same finding; only the name messages differ |
| Manifest.NoFrontmatterRejected | agents/claude/skills/agent-skills/scripts/test-skillutil.ts:166-177 | `No frontmatter here!` is rejected with "No YAML frontmatter found" |
| Manifest.MissingNameRejected | agents/claude/skills/agent-skills/scripts/skillutil.ts:264-267 | A manifest with allowed keys and no `name` is rejected with "Missing 'name' in frontmatter" |
| Manifest.MissingNameTestCase | agents/claude/skills/agent-skills/scripts/test-skillutil.ts:179-190 | The file from the test that has only a description is rejected for the missing name |
| Manifest.UnexpectedKeyRejected | agents/claude/skills/agent-skills/scripts/skillutil.ts:252-262 | Any disallowed key makes the verdict invalid, with a message starting "Unexpected key(s)" |
| Remote.ParseTreeUrl | agents/claude/skills/develop-agent-skills/scripts/skillutil.ts:558-570 | An accepted URL has non-empty, slash-free user, repo and ref, and a subpath without line terminators. Rendering the parts gives back the URL, possibly without one trailing slash |
| Remote.ParseTreeUrlRoundTrip | agents/claude/skills/develop-agent-skills/scripts/skillutil.ts:558-570 | Every well-formed tree reference is recovered from its URL, and from that URL with a trailing slash |
| Remote.Segments | agents/claude/skills/develop-agent-skills/scripts/skillutil.ts:614 | Every subpath segment is non-empty and slash-free |
| Remote.SegmentsOfJoin | agents/claude/skills/develop-agent-skills/scripts/skillutil.ts:614 | Splitting a path joined from segments gives the segments back |
| Remote.SegmentsSkipSlash | agents/claude/skills/develop-agent-skills/scripts/skillutil.ts:614 | A leading or doubled slash adds no segment |
| Remote.InstallName | agents/claude/skills/develop-agent-skills/scripts/skillutil.ts:623 | A single skill is named after the last subpath segment, or after the repository when there is none |
| Remote.InstallNameExample | agents/claude/skills/develop-agent-skills/scripts/skillutil.ts:623 | `.claude/skills/my-skill` installs as `my-skill` |
| Remote.ScanRepoEnd | agents/claude/skills/develop-agent-skills/scripts/skillutil.ts:221 | Finds the shortest repository name after which the rest of the URL is an optional `.git` and an optional path, which is how the lazy group behaves |
| Remote.ParseForkUrl | agents/claude/skills/develop-agent-skills/scripts/skillutil.ts:221-227 | An accepted URL has a non-empty, slash-free user and a non-empty repository of non-slash, non-space characters. The URL is the prefix, the user, `/` and the repository, followed by an optional `.git` and then nothing or a `/` path without line terminators |
| Remote.ForkUrlStripsGit | agents/claude/skills/develop-agent-skills/scripts/skillutil.ts:221 | `<repo>.git`, with or without a path after it, names `<repo>` |
| Remote.ForkUrlPlain | agents/claude/skills/develop-agent-skills/scripts/skillutil.ts:221 | A repository not ending in `.git` is named as written |
| Remote.FetchArchive | agents/claude/skills/develop-agent-skills/scripts/skillutil.ts:574-582 | The branch archive is requested first. The tag archive is requested second, only when the branch answer is a 404. The last answer is the one used |
| Remote.TagFallback | agents/claude/skills/develop-agent-skills/scripts/skillutil.ts:578-582 | A ref that exists only as a tag is downloaded after the branch 404 |
| Install.Locate | agents/claude/skills/develop-agent-skills/scripts/skillutil.ts:613-640 | The target is missing, a file, a single skill (it holds `SKILL.md`), a set of skills or empty of skills. Each case holds exactly when the extracted tree says so |
| Install.Candidates | agents/claude/skills/develop-agent-skills/scripts/skillutil.ts:633-640 | The candidates are exactly the direct subdirectories holding a `SKILL.md` |
| Install.InstallBatch | agents/claude/skills/develop-agent-skills/scripts/skillutil.ts:529-551 | Installs exactly the names not yet in the destination, in sorted order, and skips the others. The counts are the number of free names and of taken names. Existing entries never change, and each installed entry is its source |
| Install.SortNames | agents/claude/skills/develop-agent-skills/scripts/skillutil.ts:648 | Produces the candidates strictly sorted, each exactly once |
| Order.SortedUnique | agents/claude/skills/develop-agent-skills/scripts/skillutil.ts:648 | Two strictly sorted lists with the same elements are equal, so the sorted order does not depend on the listing order |
| Install.BatchOrderIndependent | agents/claude/skills/develop-agent-skills/scripts/skillutil.ts:633-665 | Any two sorted orders of the same candidates install identically |
| Install.Prepare | agents/claude/skills/develop-agent-skills/scripts/skillutil.ts:558-640 | An invalid URL makes no request. The requests follow the branch-then-tag rule. A single or multi-skill plan exists only for a downloaded archive, at the target the subpath resolves to |
| Install.PlanOfResponse | agents/claude/skills/develop-agent-skills/scripts/skillutil.ts:575-610 | A failed request stops `add` with its message. A non-OK status fails with that status. An unreadable body fails the download, and a failed extraction fails with its error output |
| Install.PlanOfTarget | agents/claude/skills/develop-agent-skills/scripts/skillutil.ts:612-648 | Once the archive is downloaded, the target's shape alone decides the plan. A missing target fails as a missing path, and a file fails. A target holding `SKILL.md` is installed alone under the install name. Otherwise its skill subdirectories are installed, and if there are none `add` fails |
| Install.Carry | agents/claude/skills/develop-agent-skills/scripts/skillutil.ts:621-665 | The destination only gains entries, and every new entry is a reported install. A stop changes nothing. A single skill is added iff its name is free. The batch installs the free candidates and skips the taken ones, both in sorted order. The result counts as success iff some name was installed |
| Install.CarryBatch | agents/claude/skills/develop-agent-skills/scripts/skillutil.ts:650-665 | Every candidate is tried in sorted order: each free name is installed with its own directory, and each taken name is skipped. The batch succeeds iff some candidate's name was free |
| Install.AddSkill | agents/claude/skills/develop-agent-skills/scripts/skillutil.ts:553-682 | An invalid URL makes no request and changes nothing. No existing destination entry is replaced, and every new entry is a reported install. Without a downloaded archive nothing is installed. With `SKILL.md` at the target, `add` succeeds iff the install name is free, and adds exactly that directory. Otherwise it succeeds iff some skill subdirectory's name is free, installing exactly the free ones and skipping the rest; zero candidates fails |
| Install.CarriedFromTarget | agents/claude/skills/develop-agent-skills/scripts/skillutil.ts:621-665 | The destination side of `add` restated in terms of the downloaded tree rather than the plan: the single-skill and multi-skill success conditions and the exact installed and skipped names |
| Create.Scaffold | agents/claude/skills/agent-skills/scripts/skillutil.ts:150-190 | The scaffold completes iff all four templates are readable. A complete scaffold is SKILL.md plus `scripts/example.ts`, `references/api_reference.md` and `assets/example_asset.txt`. A `SKILL.md` is written iff its template is readable |
| Create.InitPrecheck | agents/claude/skills/agent-skills/scripts/skillutil.ts:116-143 | `init` may proceed iff the name is well formed and not taken. The name is checked first |
| Create.InitSkill | agents/claude/skills/agent-skills/scripts/skillutil.ts:112-207 | Succeeds iff the name is well formed, the target is absent and every template is readable. A failed check changes nothing. No existing entry ever changes. A success leaves a skill directory with a `SKILL.md` |
| Create.InitCreatesStructure | agents/claude/skills/agent-skills/scripts/test-skillutil.ts:113-137 | A successful `init` creates the manifest and the three example files |
| Create.InitLeavesPartialDirectory | agents/claude/skills/agent-skills/scripts/skillutil.ts:149-206 | An unreadable asset template leaves a directory with a `SKILL.md` behind, and a later `init` of the same name fails as existing |
| Create.InitSkillAtomic | agents/claude/skills/agent-skills/scripts/skillutil.ts:149-206 | A failed `init` leaves the base path unchanged, and a successful one adds exactly the scaffolded directory |
| Create.InitAtomicAgrees | agents/claude/skills/agent-skills/scripts/skillutil.ts:112-207 | The corrected `init` reports what the written one reports. After it fails, a retry behaves as on the original base path |
| Create.ForkPrecheck | agents/claude/skills/develop-agent-skills/scripts/skillutil.ts:211-233 | `init --fork` may proceed iff the name is well formed, the URL parses and the name is free. The checks run in that order |
| Create.ForkSkill | agents/claude/skills/develop-agent-skills/scripts/skillutil.ts:211-300 | A failed check makes no request. Otherwise exactly one request is made, for `refs/heads/main`. Any failure leaves the base path unchanged. Success needs an ok response with an extractable archive and adds exactly that tree under the name |
| Create.ForkThenRecreateRefused | agents/claude/skills/develop-agent-skills/scripts/skillutil.ts:229-233 | After a successful fork, `init` of the same name and a second fork both fail, and the fork makes no request |
| Lifecycle.Activate | agents/claude/skills/agent-skills/scripts/skillutil.ts:369-403 | Succeeds iff the skill is deactivated and its name is free among the active ones. On success exactly that entry moves and nothing else changes. On failure nothing changes |
| Lifecycle.Deactivate | agents/claude/skills/agent-skills/scripts/skillutil.ts:405-444 | Succeeds iff the skill is active and its name is free among the deactivated ones. The deactivated root is created iff the skill is active. A success moves exactly that entry |
| Lifecycle.DeactivateThenActivate | agents/claude/skills/agent-skills/scripts/skillutil.ts:369-444 | Deactivating and then activating restores both roots |
| Lifecycle.ActivateThenDeactivate | agents/claude/skills/agent-skills/scripts/skillutil.ts:369-444 | Activating and then deactivating restores the roots exactly |
| Lifecycle.MovesPreserveSkills | agents/claude/skills/agent-skills/scripts/skillutil.ts:369-444 | Every move keeps the roots disjoint and keeps the same skills with the same contents |

## Left out

- Network, `tar`, temporary files and their clean-up in `finally` are left out. A download is the `fetch` parameter, and extraction is already applied to the body it returns.
- `--strip-components=1` is left out: the archive body is the tree after stripping.
- The YAML library is left out: it is the `parse` parameter, and its result is always a mapping or an error. A top-level result that is not a mapping is left out. `Object.keys` runs outside the `try`, so for `null` (an empty block) it throws. For a string or a list it returns the indices, which are reported as unexpected keys. For a number or a boolean it returns nothing, which is reported as a missing name. The mapping's key order is taken to be `Object.keys` order.
- `loadTemplate`, `interpolate`, `titleCase` and the template texts are left out. They stand behind `Templates` and `fill`. `chmod` of the example script is left out.
- Path normalisation by `join` and `resolve` is left out. Names are single directory entries, so `.`, `..` and names containing `/` are not modelled. This includes unvalidated names in `activate` and `deactivate`, and `.` segments in an `add` subpath.
- Permission and I/O errors from the `mkdir` calls of `init`, `init --fork` and `add`, and from every `move`, are left out. In the source they are caught and reported as `false`. Two calls sit outside any `try`, so their errors propagate as exceptions: `readTextFile` of `SKILL.md` in `validateSkill`, and `mkdir` of the deactivated root in `deactivateSkill`. Of these, only reading a `SKILL.md` that is a directory is modelled, as `ValidateSkillDir`'s `Failure`. A missing destination directory for `add`, or a missing base path for `init`, is not modelled. For `init` and `init --fork`, `mkdir -p` would create it.
- The race between an existence check and the following `move` or `mkdir` is left out.
- Console output is left out, except the returned messages of `validate`. So are the CLI wiring and exit codes, `refresh-docs`, both `statusline.ts` files and `tools/sunbeam/xn.py`.
- Order.SortedUnique: strings are ordered by code point. JavaScript's default `sort` compares UTF-16 code units, which differs only for names with characters above U+FFFF next to characters in U+E000..U+FFFF.
- Manifest.ValidateSkillDir: it models the manifest as the file's text. Decoding bytes to text is not modelled.

## Findings

| source | as written | input that shows it | evidently intended | confidence | as-written member | corrected member |
|---|---|---|---|---|---|---|
| agents/claude/skills/agent-skills/scripts/skillutil.ts:149-206 | After `mkdir`, a template that cannot be read makes `init` report an error. The partly filled directory is left in place. | A well-formed, unused name with the `asset` template missing: `init` returns false, the directory remains with a `SKILL.md`, and rerunning `init` is refused as "already exists". | Like `init --fork`, a failed `init` removes what it created, so the command can be retried. | low, not executed | Create.InitLeavesPartialDirectory | Create.InitSkillAtomic |
