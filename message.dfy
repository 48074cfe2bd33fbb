/**
 * `update_commit_message`: put a prefix in front of the commit message unless the
 * message's first line, stripped, already contains it.
 */
module MessageRewrite {
  import opened PyStr

  /**
   * The skip test of `update_commit_message`: the prefix already occurs in the first line
   * of the message, with whitespace stripped at both ends.
   */
  predicate HasPrefix(text: string, prefix: string)
    ensures prefix == [] ==> HasPrefix(text, prefix)
    ensures HasPrefix(text, prefix) ==> |prefix| <= |FirstLine(text)|
  {
    Contains(Strip(FirstLine(text)), prefix)
  }

  /**
   * The message after `update_commit_message`: left alone exactly when it already carries
   * the prefix; otherwise the prefix and one space followed by the whole old message,
   * which is kept character for character at the end.
   */
  function Rewritten(text: string, prefix: string): (r: string)
    ensures r == text <==> HasPrefix(text, prefix)
    ensures |r| >= |text| && r[|r| - |text|..] == text
    ensures r != text ==> r[..|r| - |text|] == prefix + " "
  {
    if HasPrefix(text, prefix) then text else prefix + " " + text
  }

  /**
   * A prefix that one rewrite makes visible to the skip test: no line feed in it and no
   * whitespace at either end. The hook's formatted prefixes `[#123]` are of this kind.
   */
  predicate IsTrimmedLine(prefix: string) {
    '\n' !in prefix && (prefix == [] || (!IsSpace(prefix[0]) && !IsSpace(prefix[|prefix| - 1])))
  }

  /** The first line of a rewritten message is the prefix, a space, and the old first line. */
  lemma FirstLineAfterPrefix(prefix: string, text: string)
    requires '\n' !in prefix
    ensures FirstLine(prefix + " " + text) == prefix + (" " + FirstLine(text))
  {
    var tail := " " + text;
    assert prefix + " " + text == prefix + tail;
    FirstLineAppend(prefix, tail);
    FirstLineAppend(" ", text);
  }

  /** After one rewrite with a trimmed one-line prefix, the message carries the prefix. */
  lemma RewriteAddsPrefix(text: string, prefix: string)
    requires IsTrimmedLine(prefix)
    ensures HasPrefix(Rewritten(text, prefix), prefix)
  {
    if !HasPrefix(text, prefix) {
      assert prefix != [];
      FirstLineAfterPrefix(prefix, text);
      StripKeepsTrimmedHead(prefix, " " + FirstLine(text));
    }
  }

  /** Rewriting twice with a trimmed one-line prefix gives what rewriting once gives. */
  lemma RewriteIdempotent(text: string, prefix: string)
    requires IsTrimmedLine(prefix)
    ensures Rewritten(Rewritten(text, prefix), prefix) == Rewritten(text, prefix)
  {
    RewriteAddsPrefix(text, prefix);
  }

  /**
   * Without the trimming a second run is not a no-op: a one-line prefix ending in
   * whitespace is cut short by `strip()` and then no longer found in the first line, so
   * an empty message gains the prefix again.
   */
  lemma RewriteRepeatsPaddedPrefix(prefix: string)
    requires prefix != [] && '\n' !in prefix && IsSpace(prefix[|prefix| - 1])
    ensures Rewritten(Rewritten("", prefix), prefix) != Rewritten("", prefix)
  {
    RewriteEmptyMessage(prefix);
    PaddedPrefixIsLost(prefix);
  }

  /** A one-line prefix ending in whitespace, followed by a space, does not carry itself. */
  lemma PaddedPrefixIsLost(prefix: string)
    requires prefix != [] && '\n' !in prefix && IsSpace(prefix[|prefix| - 1])
    ensures !HasPrefix(prefix + " ", prefix)
  {
    var once := prefix + " ";
    assert FirstLine(once) == once by {
      assert forall k :: 0 <= k < |prefix| ==> once[k] == prefix[k];
      assert '\n' !in once;
    }
    forall k | |once| - 2 <= k < |once| ensures IsSpace(once[k]) {
      if k == |once| - 1 {
        assert once[k] == ' ';
      } else {
        assert once[k] == prefix[|prefix| - 1];
      }
    }
    StripDropsTrailingSpace(once, 2);
  }

  /**
   * The rewriter's test of adding a prefix, for any message: when the prefix's first
   * character does not occur in the first line, the message gains the prefix and a space.
   */
  lemma RewriteAddsToPlainMessage(text: string, prefix: string)
    requires prefix != [] && prefix[0] !in FirstLine(text)
    ensures Rewritten(text, prefix) == prefix + " " + text
  {
    var line := FirstLine(text);
    var stripped := Strip(line);
    assert prefix[0] !in stripped by {
      var front := TrimStart(line);
      assert forall c :: c in front ==> c in line;
      assert forall c :: c in stripped ==> c in front;
    }
    ContainsNeedsHead(stripped, prefix);
  }

  /**
   * The rewriter's test of skipping, for any message that already starts with the
   * prefix and a space: it is left as it is.
   */
  lemma RewriteSkipsPrefixedMessage(rest: string, prefix: string)
    requires IsTrimmedLine(prefix)
    ensures Rewritten(prefix + " " + rest, prefix) == prefix + " " + rest
  {
    if prefix != [] {
      FirstLineAfterPrefix(prefix, rest);
      StripKeepsTrimmedHead(prefix, " " + FirstLine(rest));
    }
  }

  /** The rewriter's test of an empty message, for any non-empty prefix: the prefix and a space. */
  lemma RewriteEmptyMessage(prefix: string)
    requires prefix != []
    ensures Rewritten("", prefix) == prefix + " "
  {
    assert !HasPrefix("", prefix) by {
      assert FirstLine("") == [];
      assert Strip([]) == [];
      assert !Contains([], prefix);
    }
  }

  /** The commit-message file: its text is read, and possibly rewritten, in place. */
  class MessageFile {
    var content: string

    constructor (text: string)
      ensures content == text
    {
      content := text;
    }

    /**
     * `update_commit_message(filepath, prefix)`: reports whether the file was rewritten,
     * which happens exactly when its first line lacked the prefix.
     */
    method Update(prefix: string) returns (updated: bool)
      modifies this
      ensures updated <==> !HasPrefix(old(content), prefix)
      ensures content == Rewritten(old(content), prefix)
    {
      var text := content;
      var firstLine := Strip(FirstLine(text));
      if Contains(firstLine, prefix) {
        return false;
      }
      content := prefix + " " + text;
      return true;
    }
  }
}
