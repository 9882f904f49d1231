/**
 * The manifest validator behind `validate`: it reads `SKILL.md`, extracts the
 * frontmatter block, hands it to a YAML parser and runs a fixed sequence of
 * checks, stopping at the first failure. The YAML parser is a parameter: it
 * returns either an error message or the top-level mapping as an ordered list
 * of entries, in the order `Object.keys` reports them.
 */
module Manifest {
  import opened Wrappers
  import opened Text
  import opened SkillName
  import opened Frontmatter
  import opened Fs

  /** A YAML value as the validator can observe it. */
  datatype Value =
    | Null
    | Str(text: string)
    | Number(n: int)
    | Bool(b: bool)
    | List(items: seq<Value>)
    | Mapping(entries: seq<Entry>)

  datatype Entry = Entry(key: string, value: Value)

  datatype ParseResult = Parsed(fields: seq<Entry>) | YamlError(message: string)

  /** The two editions of the tool differ only in the wording of the name messages. */
  datatype Variant = Develop | AgentSkills

  datatype Verdict = Verdict(valid: bool, message: string)

  /** Why a manifest is rejected; exactly one is reported, the first check to fail. */
  datatype Finding =
    | ManifestMissing
    | FrontmatterMissing
    | FrontmatterMalformed
    | YamlInvalid(message: string)
    | UnexpectedKeys(keys: seq<string>)
    | NameMissing
    | DescriptionMissing
    | NameNotString
    | DescriptionNotString
    | NameInvalid(name: string, rule: NameRule)
    | DescriptionHasAngleBrackets
    | DescriptionTooLong(length: nat)

  const AllowedKeys: seq<string> := ["name", "description", "license", "allowed-tools", "metadata"]
  const MaxDescriptionLength: nat := 1024
  const ValidMessage: string := "✅ Skill is valid!"

  function KeysOf(fields: seq<Entry>): (r: seq<string>)
    ensures |r| == |fields|
    ensures forall i :: 0 <= i < |fields| ==> r[i] == fields[i].key
  {
    if fields == [] then [] else [fields[0].key] + KeysOf(fields[1..])
  }

  predicate IsSubsequence(a: seq<string>, b: seq<string>) {
    a == [] || (b != [] && ((a[0] == b[0] && IsSubsequence(a[1..], b[1..])) || IsSubsequence(a, b[1..])))
  }

  /**
   * The keys outside the allowed set, in mapping order: every offending key
   * as often as it occurs, no allowed key, and nothing reordered.
   */
  function UnexpectedKeyList(fields: seq<Entry>): (r: seq<string>)
    ensures IsSubsequence(r, KeysOf(fields))
    ensures forall k :: multiset(r)[k] == if k in AllowedKeys then 0 else multiset(KeysOf(fields))[k]
  {
    if fields == [] then []
    else
      var rest := UnexpectedKeyList(fields[1..]);
      assert KeysOf(fields) == [fields[0].key] + KeysOf(fields[1..]);
      if fields[0].key in AllowedKeys then rest else [fields[0].key] + rest
  }

  /** The value stored under the first occurrence of `key`, if the mapping has one. */
  function Lookup(fields: seq<Entry>, key: string): (r: Option<Value>)
    ensures r.Some? <==> key in KeysOf(fields)
  {
    if fields == [] then None
    else if fields[0].key == key then Some(fields[0].value)
    else
      assert KeysOf(fields) == [fields[0].key] + KeysOf(fields[1..]);
      Lookup(fields[1..], key)
  }

  /** `Lookup` returns the value of the first entry whose key is `key`. */
  lemma {:induction false} LookupFinds(fields: seq<Entry>, key: string)
    ensures Lookup(fields, key).Some? ==>
              exists i :: 0 <= i < |fields| && fields[i] == Entry(key, Lookup(fields, key).value)
                          && forall j :: 0 <= j < i ==> fields[j].key != key
  {
    if fields != [] && fields[0].key != key && Lookup(fields, key).Some? {
      var v := Lookup(fields, key).value;
      LookupFinds(fields[1..], key);
      var i :| 0 <= i < |fields| - 1 && fields[1..][i] == Entry(key, v)
               && forall j :: 0 <= j < i ==> fields[1..][j].key != key;
      assert fields[i + 1] == Entry(key, v);
      forall j | 0 <= j < i + 1
        ensures fields[j].key != key
      {
        if j > 0 {
          assert fields[j] == fields[1..][j - 1];
        }
      }
    } else if fields != [] && fields[0].key == key {
      assert fields[0] == Entry(key, Lookup(fields, key).value);
    }
  }

  /** `=== undefined || === null`. */
  predicate Missing(v: Option<Value>) {
    v.None? || v.value.Null?
  }

  predicate HasAngleBracket(s: string) {
    '<' in s || '>' in s
  }

  /** Presence, then type, of the two required fields. */
  function RequiredFinding(name: Option<Value>, description: Option<Value>): (r: Option<Finding>)
    ensures r.None? <==> name.Some? && name.value.Str? && description.Some? && description.value.Str?
  {
    if Missing(name) then Some(NameMissing)
    else if Missing(description) then Some(DescriptionMissing)
    else if !name.value.Str? then Some(NameNotString)
    else if !description.value.Str? then Some(DescriptionNotString)
    else None
  }

  /** The checks on the trimmed name and the trimmed description. */
  function ContentFinding(name: string, description: string): (r: Option<Finding>)
    ensures r.None? <==>
      && WellFormedName(Trim(name))
      && !HasAngleBracket(Trim(description))
      && Utf16Length(Trim(description)) <= MaxDescriptionLength
    ensures !WellFormedName(Trim(name)) ==> r == Some(NameInvalid(Trim(name), CheckName(Trim(name)).value))
    ensures WellFormedName(Trim(name)) && HasAngleBracket(Trim(description)) ==> r == Some(DescriptionHasAngleBrackets)
    ensures WellFormedName(Trim(name)) && !HasAngleBracket(Trim(description))
              && Utf16Length(Trim(description)) > MaxDescriptionLength ==>
              r == Some(DescriptionTooLong(Utf16Length(Trim(description))))
  {
    var n := Trim(name);
    var d := Trim(description);
    match CheckName(n)
    case Some(rule) => Some(NameInvalid(n, rule))
    case None =>
      if HasAngleBracket(d) then Some(DescriptionHasAngleBrackets)
      else if Utf16Length(d) > MaxDescriptionLength then Some(DescriptionTooLong(Utf16Length(d)))
      else None
  }

  /** The checks that follow parsing, in the source's order. */
  function FieldFinding(fields: seq<Entry>): (r: Option<Finding>)
    ensures r.None? <==> FieldsConform(fields)
  {
    UnexpectedEmptyIff(fields);
    var unexpected := UnexpectedKeyList(fields);
    var name := Lookup(fields, "name");
    var description := Lookup(fields, "description");
    if unexpected != [] then Some(UnexpectedKeys(unexpected))
    else if RequiredFinding(name, description).Some? then RequiredFinding(name, description)
    else ContentFinding(name.value.text, description.value.text)
  }

  /** Every check, from reading the file to the description length. */
  function FirstFinding(manifest: Option<string>, parse: string -> ParseResult): Option<Finding> {
    match manifest
    case None => Some(ManifestMissing)
    case Some(content) =>
      match Extract(content)
      case Failure(NoFrontmatter) => Some(FrontmatterMissing)
      case Failure(InvalidFormat) => Some(FrontmatterMalformed)
      case Success(block) =>
        match parse(block)
        case YamlError(msg) => Some(YamlInvalid(msg))
        case Parsed(fields) => FieldFinding(fields)
  }

  function Message(variant: Variant, f: Finding): string {
    match f
    case ManifestMissing => "SKILL.md not found"
    case FrontmatterMissing => "No YAML frontmatter found"
    case FrontmatterMalformed => "Invalid frontmatter format"
    case YamlInvalid(msg) => "Invalid YAML in frontmatter: " + msg
    case UnexpectedKeys(keys) =>
      "Unexpected key(s) in SKILL.md frontmatter: "
      + (Join(keys, ", ") + ". Allowed properties are: " + Join(AllowedKeys, ", "))
    case NameMissing => "Missing 'name' in frontmatter"
    case DescriptionMissing => "Missing 'description' in frontmatter"
    case NameNotString => "'name' must be a string"
    case DescriptionNotString => "'description' must be a string"
    case NameInvalid(n, rule) =>
      if variant == Develop then DevelopMessage(n, rule) else AgentMessage(n, rule)
    case DescriptionHasAngleBrackets => "Description cannot contain angle brackets (< or >)"
    case DescriptionTooLong(len) =>
      "Description is too long (" + NatToString(len) + " characters). Maximum is 1024 characters."
  }

  /** No failure message can be mistaken for the success message. */
  lemma MessageIsNotValid(variant: Variant, f: Finding)
    ensures Message(variant, f) != ValidMessage
  {
    var m := Message(variant, f);
    assert ValidMessage[0] == '\U{2705}';
    match f
    case YamlInvalid(msg) => assert m[0] == 'I';
    case UnexpectedKeys(keys) =>
      UnexpectedMessagePrefix(variant, keys);
      var prefix := "Unexpected key(s)";
      assert m[..|prefix|] == prefix;
      assert m[0] == m[..|prefix|][0] == prefix[0] == 'U';
    case NameInvalid(n, rule) => NameMessageIsNotValid(variant, n, rule);
    case DescriptionTooLong(len) => assert m[0] == 'D';
    case _ =>
  }

  lemma NameMessageIsNotValid(variant: Variant, n: string, rule: NameRule)
    ensures Message(variant, NameInvalid(n, rule)) != ValidMessage
  {
    var m := Message(variant, NameInvalid(n, rule));
    assert ValidMessage[0] == '\U{2705}';
    match rule {
      case Charset => assert m[0] in "IN";
      case HyphenPlacement => assert m[0] in "IN";
      case TooLong(k) => assert m[0] in "SN";
    }
  }

  /**
   * A mapping every check accepts, stated without the check sequence: only
   * allowed keys, a string name and a string description, a well-formed
   * trimmed name, and a trimmed description without angle brackets and
   * within 1024 UTF-16 units.
   */
  predicate FieldsConform(fields: seq<Entry>) {
    && (forall i :: 0 <= i < |fields| ==> fields[i].key in AllowedKeys)
    && Lookup(fields, "name").Some? && Lookup(fields, "name").value.Str?
    && Lookup(fields, "description").Some? && Lookup(fields, "description").value.Str?
    && WellFormedName(Trim(Lookup(fields, "name").value.text))
    && !HasAngleBracket(Trim(Lookup(fields, "description").value.text))
    && Utf16Length(Trim(Lookup(fields, "description").value.text)) <= MaxDescriptionLength
  }

  predicate Conforms(manifest: Option<string>, parse: string -> ParseResult) {
    && manifest.Some?
    && Extract(manifest.value).Success?
    && parse(Extract(manifest.value).value).Parsed?
    && FieldsConform(parse(Extract(manifest.value).value).fields)
  }

  /** `validateSkill` on the contents of `SKILL.md` (`None` when there is no such file). */
  function Validate(variant: Variant, manifest: Option<string>, parse: string -> ParseResult): (r: Verdict)
    ensures r.valid <==> Conforms(manifest, parse)
    ensures r.valid <==> r.message == ValidMessage
  {
    match FirstFinding(manifest, parse)
    case None =>
      ConformsIffNoFinding(manifest, parse);
      Verdict(true, ValidMessage)
    case Some(f) =>
      ConformsIffNoFinding(manifest, parse);
      MessageIsNotValid(variant, f);
      Verdict(false, Message(variant, f))
  }

  lemma UnexpectedEmptyIff(fields: seq<Entry>)
    ensures UnexpectedKeyList(fields) == [] <==> forall i :: 0 <= i < |fields| ==> fields[i].key in AllowedKeys
  {
    var r := UnexpectedKeyList(fields);
    var keys := KeysOf(fields);
    if r == [] {
      forall i | 0 <= i < |fields|
        ensures fields[i].key in AllowedKeys
      {
        assert keys[i] == fields[i].key;
        assert multiset(keys)[fields[i].key] > 0;
      }
    } else {
      assert multiset(r)[r[0]] > 0;
      assert r[0] !in AllowedKeys && multiset(keys)[r[0]] > 0;
      assert r[0] in keys;
    }
  }

  lemma ConformsIffNoFinding(manifest: Option<string>, parse: string -> ParseResult)
    ensures FirstFinding(manifest, parse).None? <==> Conforms(manifest, parse)
  {
  }

  /**
   * `validateSkill` on a skill directory: a missing directory, or one without
   * `SKILL.md`, is reported as such; a `SKILL.md` that is itself a directory
   * passes the existence test but cannot be read, and the read error escapes
   * the validator (`Failure`).
   */
  function ValidateSkillDir(variant: Variant, dir: Option<Node>, parse: string -> ParseResult): (r: Result<Verdict, string>)
    ensures r.Failure? <==> dir.Some? && HasManifest(dir.value) && dir.value.children[ManifestName].Dir?
    ensures r.Success? && r.value.valid ==> dir.Some? && HasManifest(dir.value) && dir.value.children[ManifestName].File?
    ensures dir.None? ==> r == Success(Verdict(false, "SKILL.md not found"))
  {
    if dir.None? || !HasManifest(dir.value) then Success(Validate(variant, None, parse))
    else
      match dir.value.children[ManifestName]
      case File(content) => Success(Validate(variant, Some(content), parse))
      case Dir(_) => Failure("Is a directory: SKILL.md")
  }

  predicate AllKeysAllowed(fields: seq<Entry>) {
    forall i :: 0 <= i < |fields| ==> fields[i].key in AllowedKeys
  }

  /**
   * First failure wins: each finding is reported exactly when every earlier
   * check passed and its own check failed. Presence is checked for both fields
   * before either type, so a non-string name without a description is
   * reported as a missing description.
   */
  lemma FieldChecksInOrder(fields: seq<Entry>)
    ensures var r := FieldFinding(fields);
      && ((r.Some? && r.value.UnexpectedKeys?) <==> !AllKeysAllowed(fields))
      && (r.Some? && r.value.UnexpectedKeys? ==> r.value.keys != [])
    ensures var r := FieldFinding(fields);
      var name := Lookup(fields, "name");
      var description := Lookup(fields, "description");
      && (r == Some(NameMissing) <==> AllKeysAllowed(fields) && Missing(name))
      && (r == Some(DescriptionMissing) <==> AllKeysAllowed(fields) && !Missing(name) && Missing(description))
      && (r == Some(NameNotString) <==>
            AllKeysAllowed(fields) && !Missing(name) && !Missing(description) && !name.value.Str?)
      && (r == Some(DescriptionNotString) <==>
            AllKeysAllowed(fields) && !Missing(name) && !Missing(description) && name.value.Str?
            && !description.value.Str?)
    ensures var r := FieldFinding(fields);
      var name := Lookup(fields, "name");
      var description := Lookup(fields, "description");
      && ((r.Some? && r.value.NameInvalid?) <==>
            AllKeysAllowed(fields) && !Missing(name) && !Missing(description) && name.value.Str?
            && description.value.Str? && !WellFormedName(Trim(name.value.text)))
      && (r == Some(DescriptionHasAngleBrackets) <==>
            AllKeysAllowed(fields) && !Missing(name) && !Missing(description) && name.value.Str?
            && description.value.Str? && WellFormedName(Trim(name.value.text))
            && HasAngleBracket(Trim(description.value.text)))
    ensures var r := FieldFinding(fields);
      var name := Lookup(fields, "name");
      var description := Lookup(fields, "description");
      && (r.Some? && r.value.NameInvalid? ==>
            name.Some? && name.value.Str?
            && r.value == NameInvalid(Trim(name.value.text), CheckName(Trim(name.value.text)).value))
      && ((r.Some? && r.value.DescriptionTooLong?) <==>
            AllKeysAllowed(fields) && !Missing(name) && !Missing(description) && name.value.Str?
            && description.value.Str? && WellFormedName(Trim(name.value.text))
            && !HasAngleBracket(Trim(description.value.text))
            && Utf16Length(Trim(description.value.text)) > MaxDescriptionLength)
      && (r.Some? && r.value.DescriptionTooLong? ==>
            description.Some? && description.value.Str?
            && r.value.length == Utf16Length(Trim(description.value.text)))
  {
    UnexpectedEmptyIff(fields);
  }

  /** `{name: 5}` without a description: the missing description is reported, not the name's type. */
  lemma NumericNameWithoutDescription(parse: string -> ParseResult, block: string, rest: string)
    requires NoClosing(block)
    requires parse(block) == Parsed([Entry("name", Number(5))])
    ensures Validate(Develop, Some(Render(block, rest)), parse) == Verdict(false, "Missing 'description' in frontmatter")
  {
    ExtractRender(block, rest);
    assert "name" in AllowedKeys;
  }

  /** The name and description are trimmed before they are checked, so padding is accepted. */
  lemma PaddedNameAccepted(description: string)
    requires description != [] && !IsJsWhitespace(description[0]) && !IsJsWhitespace(description[|description| - 1])
    requires !HasAngleBracket(description) && |description| <= 512
    ensures FieldFinding([Entry("name", Str(" my-skill ")), Entry("description", Str(" " + description))]) == None
  {
    TwoFieldsConform(" my-skill ", " " + description);
    PaddingTrimmed(description);
    MySkillWellFormed();
  }

  /** A mapping holding just a string name and a string description passes exactly when their contents do. */
  lemma TwoFieldsConform(name: string, description: string)
    ensures FieldFinding([Entry("name", Str(name)), Entry("description", Str(description))]).None?
      <==> ContentFinding(name, description).None?
  {
    var fields := [Entry("name", Str(name)), Entry("description", Str(description))];
    assert AllKeysAllowed(fields) by {
      assert fields[0].key == AllowedKeys[0] && fields[1].key == AllowedKeys[1];
    }
    assert Lookup(fields, "name") == Some(Str(name));
    assert Lookup(fields, "description") == Some(Str(description));
  }

  lemma PaddingTrimmed(description: string)
    requires description != [] && !IsJsWhitespace(description[0]) && !IsJsWhitespace(description[|description| - 1])
    ensures Trim(" my-skill ") == "my-skill"
    ensures Trim(" " + description) == description
  {
    MySkillTrimmed();
    TrimPadded(" ", description, "");
    assert " " + description + "" == " " + description;
  }

  lemma MySkillTrimmed()
    ensures Trim(" my-skill ") == "my-skill"
  {
    TrimPadded(" ", "my-skill", " ");
    assert " " + "my-skill" + " " == " my-skill ";
  }

  lemma {:induction false} UnexpectedKeysDependOnKeysOnly(f1: seq<Entry>, f2: seq<Entry>)
    requires KeysOf(f1) == KeysOf(f2)
    ensures UnexpectedKeyList(f1) == UnexpectedKeyList(f2)
  {
    if f1 != [] {
      assert KeysOf(f1) == [f1[0].key] + KeysOf(f1[1..]);
      assert KeysOf(f2) == [f2[0].key] + KeysOf(f2[1..]);
      assert KeysOf(f1[1..]) == KeysOf(f1)[1..] && KeysOf(f2[1..]) == KeysOf(f2)[1..];
      UnexpectedKeysDependOnKeysOnly(f1[1..], f2[1..]);
    }
  }

  /**
   * The values under `license`, `allowed-tools` and `metadata` are never
   * inspected: two mappings with the same keys in the same order and the same
   * name and description receive the same finding.
   */
  lemma OptionalValuesUnchecked(f1: seq<Entry>, f2: seq<Entry>)
    requires KeysOf(f1) == KeysOf(f2)
    requires Lookup(f1, "name") == Lookup(f2, "name")
    requires Lookup(f1, "description") == Lookup(f2, "description")
    ensures FieldFinding(f1) == FieldFinding(f2)
  {
    UnexpectedKeysDependOnKeysOnly(f1, f2);
  }

  /** The two editions accept exactly the same manifests, and word every other finding alike. */
  lemma VariantsAgree(manifest: Option<string>, parse: string -> ParseResult)
    ensures Validate(Develop, manifest, parse).valid == Validate(AgentSkills, manifest, parse).valid
    ensures var f := FirstFinding(manifest, parse);
      f.Some? && !f.value.NameInvalid? ==>
        Validate(Develop, manifest, parse).message == Validate(AgentSkills, manifest, parse).message
  {
    match FirstFinding(manifest, parse)
    case None =>
    case Some(f) =>
      assert Validate(Develop, manifest, parse) == Verdict(false, Message(Develop, f));
      assert Validate(AgentSkills, manifest, parse) == Verdict(false, Message(AgentSkills, f));
  }

  /** A manifest with no frontmatter is rejected with a message naming the frontmatter. */
  lemma NoFrontmatterRejected(variant: Variant, parse: string -> ParseResult)
    ensures Validate(variant, Some("No frontmatter here!"), parse) == Verdict(false, "No YAML frontmatter found")
  {
    assert "No frontmatter here!"[0] != '-';
  }

  /** A manifest whose frontmatter lacks `name` is rejected with a message naming it. */
  lemma MissingNameRejected(variant: Variant, parse: string -> ParseResult, block: string, rest: string, fields: seq<Entry>)
    requires NoClosing(block) && parse(block) == Parsed(fields)
    requires AllKeysAllowed(fields) && "name" !in KeysOf(fields)
    ensures Validate(variant, Some(Render(block, rest)), parse) == Verdict(false, "Missing 'name' in frontmatter")
  {
    ExtractRender(block, rest);
    FieldChecksInOrder(fields);
  }

  /** The missing-name case exercised by the tool's own tests. */
  lemma MissingNameTestCase(variant: Variant, parse: string -> ParseResult)
    requires parse("description: Missing name") == Parsed([Entry("description", Str("Missing name"))])
    ensures Validate(variant, Some("---\ndescription: Missing name\n---\n# Skill\n"), parse)
      == Verdict(false, "Missing 'name' in frontmatter")
  {
    var block := "description: Missing name";
    var fields := [Entry("description", Str("Missing name"))];
    MissingNameTestText();
    assert AllKeysAllowed(fields) by { assert fields[0].key == AllowedKeys[1]; }
    assert "name" !in KeysOf(fields) by { assert KeysOf(fields) == ["description"]; }
    MissingNameRejected(variant, parse, block, "\n# Skill\n", fields);
  }

  lemma MissingNameTestText()
    ensures "---\ndescription: Missing name\n---\n# Skill\n" == Render("description: Missing name", "\n# Skill\n")
    ensures NoClosing("description: Missing name")
  {
    MissingNameTestRender();
    NoDashLineNoClosing("description: Missing name");
  }

  lemma MissingNameTestRender()
    ensures "---\ndescription: Missing name\n---\n# Skill\n" == Render("description: Missing name", "\n# Skill\n")
  {
    var block, rest := "description: Missing name", "\n# Skill\n";
    assert "---\n" + block == "---\ndescription: Missing name";
    assert "---\ndescription: Missing name" + "\n---" == "---\ndescription: Missing name\n---";
    assert "---\ndescription: Missing name\n---" + rest == "---\ndescription: Missing name\n---\n# Skill\n";
  }

  /** A manifest with a key outside the allowed set is rejected with a message starting "Unexpected". */
  lemma UnexpectedKeyRejected(variant: Variant, parse: string -> ParseResult, block: string, rest: string, fields: seq<Entry>, i: nat)
    requires NoClosing(block) && parse(block) == Parsed(fields)
    requires i < |fields| && fields[i].key !in AllowedKeys
    ensures var v := Validate(variant, Some(Render(block, rest)), parse);
      !v.valid && StartsWith(v.message, "Unexpected key(s)")
  {
    ExtractRender(block, rest);
    FieldChecksInOrder(fields);
    UnexpectedMessagePrefix(variant, FieldFinding(fields).value.keys);
  }

  lemma UnexpectedMessagePrefix(variant: Variant, keys: seq<string>)
    ensures StartsWith(Message(variant, UnexpectedKeys(keys)), "Unexpected key(s)")
  {
    var m := Message(variant, UnexpectedKeys(keys));
    var prefix := "Unexpected key(s) in SKILL.md frontmatter: ";
    assert m == prefix + (Join(keys, ", ") + ". Allowed properties are: " + Join(AllowedKeys, ", "));
    assert m[..17] == prefix[..17] == "Unexpected key(s)";
  }
}
