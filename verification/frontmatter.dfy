/**
 * Locating the YAML frontmatter block of a `SKILL.md` file. The source first
 * requires the text to start with `---`, then matches `^---\n(.*?)\n---` with
 * the dot matching newlines: the block is everything between the opening
 * `---\n` and the FIRST later `\n---`.
 */
module Frontmatter {
  import opened Wrappers
  import opened Text

  const Delimiter: string := "---"
  const Opening: string := "---\n"
  const Closing: string := "\n---"

  datatype FrontmatterError =
    | NoFrontmatter   // the text does not start with `---`
    | InvalidFormat   // it does, but no `---\n ... \n---` pair follows

  /** The block contains no closing delimiter of its own. */
  predicate NoClosing(block: string) {
    forall j :: 0 <= j < |block| ==> !OccursAt(block, Closing, j)
  }

  /** A manifest whose frontmatter is `block`, followed by whatever `rest` holds. */
  function Render(block: string, rest: string): string {
    Opening + block + Closing + rest
  }

  function Extract(content: string): (r: Result<string, FrontmatterError>)
    ensures r == Failure(NoFrontmatter) <==> !StartsWith(content, Delimiter)
    ensures r.Success? ==> |r.value| + 8 <= |content|
    ensures r.Success? ==> content == Render(r.value, content[|r.value| + 8..]) && NoClosing(r.value)
  {
    if !StartsWith(content, Delimiter) then Failure(NoFrontmatter)
    else if !StartsWith(content, Opening) then Failure(InvalidFormat)
    else
      match FindFrom(content, Closing, 4)
      case None => Failure(InvalidFormat)
      case Some(j) =>
        var block := content[4..j];
        assert content == Render(block, content[j + 4..]) by {
          assert content[..4] == Opening;
          assert content[j..j + 4] == Closing;
          assert content[..j] == content[..4] + content[4..j];
          assert content[..j + 4] == content[..j] + content[j..j + 4];
          assert content == content[..j + 4] + content[j + 4..];
        }
        assert NoClosing(block) by {
          forall k: nat | OccursAt(block, Closing, k)
            ensures false
          {
            assert content[k + 4..k + 8] == block[k..k + 4];
            assert OccursAt(content, Closing, k + 4);
          }
        }
        Success(block)
  }

  /** Any block free of `\n---` is recovered from the manifest it was rendered into. */
  lemma ExtractRender(block: string, rest: string)
    requires NoClosing(block)
    ensures Extract(Render(block, rest)) == Success(block)
  {
    var content := Render(block, rest);
    var e := |block| + 4;
    assert content[..3] == Delimiter && content[..4] == Opening;
    assert OccursAt(content, Closing, e) by {
      assert content[e..e + 4] == Closing;
    }
    forall j | 4 <= j < e
      ensures !OccursAt(content, Closing, j)
    {
      if j + 4 <= e {
        assert content[j..j + 4] == block[j - 4..j];
        assert !OccursAt(block, Closing, j - 4);
      } else {
        assert content[e] == '\n';
        if j + 4 <= |content| {
          assert content[j..j + 4][e - j] == content[e];
        }
        assert Closing[e - j] == '-';
      }
    }
    var found := FindFrom(content, Closing, 4);
    assert found == Some(e);
    assert content[4..e] == block;
  }

  /** A block in which no line starts with a dash cannot contain the closing delimiter. */
  lemma NoDashLineNoClosing(block: string)
    requires forall i :: 0 <= i < |block| - 1 && block[i] == '\n' ==> block[i + 1] != '-'
    ensures NoClosing(block)
  {
    forall j | 0 <= j < |block|
      ensures !OccursAt(block, Closing, j)
    {
      if j + 4 <= |block| {
        assert block[j..j + 4][0] == block[j] && block[j..j + 4][1] == block[j + 1];
      }
    }
  }

  /**
   * An opening line that is not exactly `---` followed by a line feed makes
   * the block unreadable rather than missing: a Windows line ending, or a
   * fourth dash.
   */
  lemma MalformedOpeningIsInvalid(rest: string)
    ensures Extract("---\r\n" + rest) == Failure(InvalidFormat)
    ensures Extract("----\n" + rest) == Failure(InvalidFormat)
  {
    var crlf := "---\r\n" + rest;
    assert crlf[..3] == Delimiter;
    assert crlf[3] == '\r';
    var dashes := "----\n" + rest;
    assert dashes[..3] == Delimiter;
    assert dashes[3] == '-';
  }
}
