/**
 * The hook's entry point, `main`, from the branch name on: extract the issue number,
 * format it with the default template `[{}]`, and prefix the commit message with it.
 * Looking the branch up with git is outside the model; its answer is an input.
 */
module Hook {
  import opened Wrappers
  import opened PyStr
  import opened IssueExtract
  import opened MessageRewrite

  /**
   * `"[{}]".format(issue)`: the default template around the issue number. The issue
   * number can be read back from between the brackets, and a formatted issue token is a
   * prefix that one rewrite makes visible.
   */
  function FormatPrefix(issue: string): (p: string)
    ensures |p| == |issue| + 2 && p[1..|p| - 1] == issue
    ensures IsIssueToken(issue) ==> IsTrimmedLine(p)
  {
    var p := "[" + issue + "]";
    assert forall k :: 1 <= k < |p| - 1 ==> p[k] == issue[k - 1];
    p
  }

  /**
   * The message the hook leaves behind, given the branch the git query returned
   * (`None` when there is none) and the message it found.
   */
  function HookResult(branch: Option<string>, text: string): (r: string)
    ensures |r| >= |text| && r[|r| - |text|..] == text
    ensures r != text ==> branch != None && ExtractIssueNumber(branch.value) != None
  {
    if branch == None || branch.value == [] then text
    else
      match ExtractIssueNumber(branch.value)
      case None => text
      case Some(issue) => Rewritten(text, FormatPrefix(issue))
  }

  /**
   * `main` from line 96 on: exits with 0 in every case, and rewrites the message only
   * when a branch is known and carries an issue number.
   */
  method RunHook(branch: Option<string>, file: MessageFile) returns (exitCode: int)
    modifies file
    ensures exitCode == 0
    ensures file.content == HookResult(branch, old(file.content))
  {
    if branch == None || branch.value == [] {
      return 0;
    }
    var issue := ExtractIssueNumber(branch.value);
    if issue == None {
      return 0;
    }
    var prefix := FormatPrefix(issue.value);
    var updated := file.Update(prefix);
    return 0;
  }

  /** Without a branch, or without a `#` followed by a digit in it, the message is left alone. */
  lemma HookSkipsWithoutIssue(branch: Option<string>, text: string)
    requires branch == None || forall j :: 0 <= j < |branch.value| ==> !MatchStartsAt(branch.value, j)
    ensures HookResult(branch, text) == text
  {
  }

  /**
   * On a branch whose leftmost `#` followed by a digit is at `j`, the message is rewritten
   * with `[`, the greedy match at `j`, and `]`.
   */
  lemma HookPrefixesLeftmostIssue(branch: string, text: string, j: nat)
    requires IsLeftmostStart(branch, j)
    ensures HookResult(Some(branch), text) == Rewritten(text, FormatPrefix(branch[j..j + MatchLength(branch, j)]))
  {
    var issue := branch[j..j + MatchLength(branch, j)];
    ExtractAt(branch, j, MatchLength(branch, j));
    assert ExtractIssueNumber(branch) == Some(issue);
    assert branch != [];
  }

  /**
   * Running the hook a second time on the same branch changes nothing: the prefix written
   * the first time is found on the first line.
   */
  lemma {:induction false} HookIdempotent(branch: Option<string>, text: string)
    ensures HookResult(branch, HookResult(branch, text)) == HookResult(branch, text)
  {
    if branch != None && branch.value != [] {
      match ExtractIssueNumber(branch.value)
      case None =>
      case Some(issue) =>
        RewriteIdempotent(text, FormatPrefix(issue));
    }
  }
}
