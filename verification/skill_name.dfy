/**
 * The skill-name rule shared by `init`, `init --fork` and `validate`:
 * a name is non-empty lowercase hyphen-case (`[a-z0-9-]`), neither starts
 * nor ends with `-`, has no `--`, and is at most 64 characters long.
 * The three checks run in a fixed order and the first failing one decides
 * the message.
 */
module SkillName {
  import opened Wrappers
  import opened Text

  const MaxNameLength: nat := 64

  /** The rule a rejected name breaks, named after the check that caught it. */
  datatype NameRule = Charset | HyphenPlacement | TooLong(length: nat)

  predicate IsNameChar(c: char) {
    ('a' <= c <= 'z') || ('0' <= c <= '9') || c == '-'
  }

  /** The first check, stated directly: the name is non-empty and every character is in `[a-z0-9-]`. */
  predicate CharsetOk(s: string) {
    |s| > 0 && forall i :: 0 <= i < |s| ==> IsNameChar(s[i])
  }

  /** The second check, stated directly: a non-empty name neither starts nor ends with `-` and has no `--`. */
  predicate HyphensOk(s: string)
    requires |s| > 0
  {
    && s[0] != '-'
    && s[|s| - 1] != '-'
    && forall i :: 0 <= i < |s| - 1 ==> !(s[i] == '-' && s[i + 1] == '-')
  }

  /** A name every check accepts. */
  predicate WellFormedName(s: string) {
    CharsetOk(s) && HyphensOk(s) && |s| <= MaxNameLength
  }

  /** The character class scan behind `/^[a-z0-9-]+$/` (without the non-empty part). */
  function AllNameChars(s: string): (r: bool)
    ensures r <==> forall i :: 0 <= i < |s| ==> IsNameChar(s[i])
  {
    s == [] || (IsNameChar(s[0]) && AllNameChars(s[1..]))
  }

  lemma DoubleHyphenAt(s: string, i: nat)
    ensures OccursAt(s, "--", i) <==> i + 1 < |s| && s[i] == '-' && s[i + 1] == '-'
  {
    if i + 2 <= |s| {
      assert s[i..i + 2] == [s[i], s[i + 1]];
    }
  }

  lemma IncludesDoubleHyphen(s: string)
    ensures Includes(s, "--") <==> exists i :: 0 <= i < |s| - 1 && s[i] == '-' && s[i + 1] == '-'
  {
    if Includes(s, "--") {
      var k := FindFrom(s, "--", 0).value;
      DoubleHyphenAt(s, k);
    }
    if exists i :: 0 <= i < |s| - 1 && s[i] == '-' && s[i + 1] == '-' {
      var i :| 0 <= i < |s| - 1 && s[i] == '-' && s[i + 1] == '-';
      DoubleHyphenAt(s, i);
    }
  }

  /**
   * The three checks in the source's order: character set (which also rejects
   * the empty name), hyphen placement, then length. `None` means accepted.
   */
  function CheckName(s: string): (r: Option<NameRule>)
    ensures r == None <==> WellFormedName(s)
    ensures r == Some(Charset) <==> !CharsetOk(s)
    ensures r == Some(HyphenPlacement) <==> CharsetOk(s) && !HyphensOk(s)
    ensures (r.Some? && r.value.TooLong?) <==> CharsetOk(s) && HyphensOk(s) && |s| > MaxNameLength
    ensures r.Some? && r.value.TooLong? ==> r.value.length == |s| == Utf16Length(s)
  {
    IncludesDoubleHyphen(s);
    if !(|s| > 0 && AllNameChars(s)) then Some(Charset)
    else if StartsWith(s, "-") || EndsWith(s, "-") || Includes(s, "--") then Some(HyphenPlacement)
    else if |s| > MaxNameLength then
      Utf16LengthOfBmp(s);
      Some(TooLong(|s|))
    else None
  }

  /** The messages of the standalone name check (also printed by `init`). */
  function DevelopMessage(s: string, rule: NameRule): string {
    match rule
    case Charset =>
      "Invalid skill name '" + s + "'\n   Skill names must be lowercase letters, digits, and hyphens only"
    case HyphenPlacement =>
      "Invalid skill name '" + s + "'\n   Skill names cannot start/end with hyphen or contain consecutive hyphens"
    case TooLong(n) =>
      "Skill name too long (" + NatToString(n) + " characters)\n   Maximum length is 64 characters"
  }

  /** The messages of the name checks written inline in the other edition's validator. */
  function AgentMessage(s: string, rule: NameRule): string {
    match rule
    case Charset =>
      "Name '" + s + "' should be hyphen-case (lowercase letters, digits, and hyphens only)"
    case HyphenPlacement =>
      "Name '" + s + "' cannot start/end with hyphen or contain consecutive hyphens"
    case TooLong(n) =>
      "Name is too long (" + NatToString(n) + " characters). Maximum is 64 characters."
  }

  /** The standalone check: `null` for an accepted name, otherwise the message of the first failing check. */
  function ValidateSkillName(s: string): (r: Option<string>)
    ensures r.None? <==> WellFormedName(s)
    ensures !CharsetOk(s) ==> r == Some(DevelopMessage(s, Charset))
    ensures CharsetOk(s) && !HyphensOk(s) ==> r == Some(DevelopMessage(s, HyphenPlacement))
    ensures CharsetOk(s) && HyphensOk(s) && |s| > MaxNameLength ==> r == Some(DevelopMessage(s, TooLong(|s|)))
  {
    match CheckName(s)
    case None => None
    case Some(rule) => Some(DevelopMessage(s, rule))
  }

  /** Names the init tests expect to be refused, each for the reason the test gives. */
  lemma InitTestNamesRejected()
    ensures CheckName("Invalid-Name") == Some(Charset)
    ensures CheckName("-invalid") == Some(HyphenPlacement)
    ensures CheckName("invalid-") == Some(HyphenPlacement)
    ensures CheckName("invalid--name") == Some(HyphenPlacement)
  {
    CharsetReportedBeforeLength("Invalid-Name", 0);
    LowercaseWord("-invalid");
    LowercaseWord("invalid-");
    LowercaseWord("invalid--name");
    assert "invalid--name"[7] == '-' && "invalid--name"[8] == '-';
  }

  lemma LowercaseWord(s: string)
    requires s in {"-invalid", "invalid-", "invalid--name"}
    ensures CharsetOk(s)
  {
  }

  /** The name used by the padding example. */
  lemma MySkillWellFormed()
    ensures WellFormedName("my-skill")
  {
    var s := "my-skill";
    assert s == ['m', 'y', '-', 's', 'k', 'i', 'l', 'l'];
    assert forall i :: 0 <= i < |s| ==> IsNameChar(s[i]);
    assert forall i :: 0 <= i < |s| - 1 ==> !(s[i] == '-' && s[i + 1] == '-');
  }

  /** The character-set check runs first: an over-long name with a bad character reports the character set. */
  lemma CharsetReportedBeforeLength(s: string, i: nat)
    requires i < |s| && !IsNameChar(s[i])
    ensures CheckName(s) == Some(Charset)
  {
  }

  /** The hyphen check runs before the length check. */
  lemma HyphensReportedBeforeLength(s: string)
    requires CharsetOk(s) && s[0] == '-'
    ensures CheckName(s) == Some(HyphenPlacement)
  {
  }
}
