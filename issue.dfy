/**
 * `extract_issue_number`: the leftmost match of the issue pattern in a branch name,
 * upper-cased, or nothing. The pattern is the hook's default, `#\d{1,5}`, matched by
 * hand the way `re.findall` scans a string.
 */
module IssueExtract {
  import opened Wrappers
  import opened PyStr

  /** The `5` of `\d{1,5}`. */
  const MaxDigits: nat := 5

  /** A match can start at `i`: a `#` directly followed by a digit. */
  predicate MatchStartsAt(s: string, i: int) {
    0 <= i && i + 1 < |s| && s[i] == '#' && IsDigit(s[i + 1])
  }

  /** `i` is the leftmost position where a match starts. */
  predicate IsLeftmostStart(s: string, i: int) {
    MatchStartsAt(s, i) && forall k :: 0 <= k < i ==> !MatchStartsAt(s, k)
  }

  /**
   * `s[i..i + n]` is what `#\d{1,5}` matches at `i`: a `#`, then between one and five
   * digits, and no digit left behind unless five were already taken (the quantifier
   * `{1,5}` is greedy).
   */
  predicate IsGreedyMatch(s: string, i: nat, n: nat) {
    i + n <= |s| && 2 <= n <= 1 + MaxDigits && s[i] == '#'
    && (forall k :: i + 1 <= k < i + n ==> IsDigit(s[k]))
    && (n == 1 + MaxDigits || i + n == |s| || !IsDigit(s[i + n]))
  }

  /** What a match of `#\d{1,5}` looks like on its own: `#` and one to five digits. */
  predicate IsIssueToken(t: string) {
    2 <= |t| <= 1 + MaxDigits && t[0] == '#' && forall k :: 1 <= k < |t| ==> IsDigit(t[k])
  }

  /** How many digits `\d{0,max}` takes greedily at `i`. */
  function DigitRun(s: string, i: nat, max: nat): (n: nat)
    requires i <= |s|
    ensures n <= max && i + n <= |s|
    ensures forall k :: i <= k < i + n ==> IsDigit(s[k])
    ensures n == max || i + n == |s| || !IsDigit(s[i + n])
    decreases max
  {
    if max == 0 || i == |s| || !IsDigit(s[i]) then 0 else 1 + DigitRun(s, i + 1, max - 1)
  }

  /**
   * The length of the match of `#\d{1,5}` at `i`, or 0 when none starts there. A match
   * starts exactly where `MatchStartsAt` says, and its length is the one greedy match.
   */
  function MatchLength(s: string, i: nat): (n: nat)
    requires i <= |s|
    ensures n != 0 <==> MatchStartsAt(s, i)
    ensures n != 0 ==> IsGreedyMatch(s, i, n)
    ensures forall m :: IsGreedyMatch(s, i, m) ==> m == n
  {
    if i < |s| && s[i] == '#' then
      var d := DigitRun(s, i + 1, MaxDigits);
      if d == 0 then 0 else 1 + d
    else
      0
  }

  /**
   * `re.findall("#\d{1,5}", s[i..])` with positions kept absolute: try a match at each
   * position from left to right and, after a match, resume where it ended.
   */
  function FindAll(s: string, i: nat): (ms: seq<string>)
    requires i <= |s|
    ensures forall k :: 0 <= k < |ms| ==> IsIssueToken(ms[k])
    decreases |s| - i
  {
    if i == |s| then []
    else
      var n := MatchLength(s, i);
      if n != 0 then [s[i..i + n]] + FindAll(s, i + n) else FindAll(s, i + 1)
  }

  /** The match list from `i` on is empty exactly when no match starts at or after `i`. */
  lemma {:induction false} FindAllEmpty(s: string, i: nat)
    requires i <= |s|
    ensures FindAll(s, i) == [] <==> forall j :: i <= j < |s| ==> !MatchStartsAt(s, j)
    decreases |s| - i
  {
    if i < |s| && MatchLength(s, i) == 0 {
      FindAllEmpty(s, i + 1);
    }
  }

  /** A non-empty match list starts with the match at the first position where one starts. */
  lemma {:induction false} FindAllHead(s: string, i: nat)
    requires i <= |s| && FindAll(s, i) != []
    ensures exists j ::
      i <= j < |s| && MatchStartsAt(s, j)
      && (forall k :: i <= k < j ==> !MatchStartsAt(s, k))
      && FindAll(s, i)[0] == s[j..j + MatchLength(s, j)]
    decreases |s| - i
  {
    var n := MatchLength(s, i);
    if n != 0 {
      assert FindAll(s, i)[0] == s[i..i + n];
    } else {
      assert FindAll(s, i) == FindAll(s, i + 1);
      FindAllHead(s, i + 1);
    }
  }

  /**
   * Lines 41-44 of `extract_issue_number` given the match list: the first match
   * upper-cased, or nothing when the list is empty. On a match of the default pattern
   * `upper()` changes nothing, so the result is the match itself.
   */
  function FirstMatchUpper(matches: seq<string>): (r: Option<string>)
    ensures r == None <==> matches == []
    ensures matches != [] && IsIssueToken(matches[0]) ==> r == Some(matches[0])
  {
    if matches == [] then None
    else if IsIssueToken(matches[0]) then
      UpperKeeps(matches[0]);
      Some(Upper(matches[0]))
    else
      Some(Upper(matches[0]))
  }

  /**
   * `extract_issue_number(branch, r"#\d{1,5}")`: nothing exactly when no `#` in the
   * branch is followed by a digit; otherwise the greedy match at the leftmost such `#`,
   * unchanged by `upper()`.
   */
  function ExtractIssueNumber(branch: string): (r: Option<string>)
    ensures r == None <==> forall j :: 0 <= j < |branch| ==> !MatchStartsAt(branch, j)
    ensures r != None ==>
      IsIssueToken(r.value)
      && exists j :: IsLeftmostStart(branch, j) && r.value == branch[j..j + MatchLength(branch, j)]
  {
    var matches := FindAll(branch, 0);
    FindAllEmpty(branch, 0);
    if matches != [] then
      FindAllHead(branch, 0);
      FirstMatchUpper(matches)
    else
      FirstMatchUpper(matches)
  }

  /** Given the leftmost start and the greedy match there, the result is that match. */
  lemma ExtractAt(branch: string, j: nat, n: nat)
    requires IsLeftmostStart(branch, j) && IsGreedyMatch(branch, j, n)
    ensures ExtractIssueNumber(branch) == Some(branch[j..j + n])
  {
    var r := ExtractIssueNumber(branch);
    assert r != None;
    var j' :| IsLeftmostStart(branch, j') && r.value == branch[j'..j' + MatchLength(branch, j')];
    assert !(j' < j) && !(j < j');
    assert MatchLength(branch, j) == n;
  }

  /** A branch without `#` carries no issue number. */
  lemma NoHashNoIssue(branch: string)
    requires '#' !in branch
    ensures ExtractIssueNumber(branch) == None
  {
    forall j | 0 <= j < |branch| ensures !MatchStartsAt(branch, j) {
      assert branch[j] in branch;
    }
  }

  /** `feature/#12345-some-feature` yields `#12345`, as the extractor's tests expect. */
  lemma ExtractFiveDigitIssue()
    ensures ExtractIssueNumber("feature/#12345-some-feature") == Some("#12345")
  {
    var b := "feature/#12345-some-feature";
    assert IsLeftmostStart(b, 8) by {
      assert forall k :: 0 <= k < 8 ==> b[k] != '#';
    }
    assert IsGreedyMatch(b, 8, 6);
    assert b[8..14] == "#12345" by {
      assert forall k :: 0 <= k < 6 ==> b[8..14][k] == "#12345"[k];
    }
    ExtractAt(b, 8, 6);
  }

  /** `bugfix/#1` yields `#1`, as the extractor's tests expect. */
  lemma ExtractOneDigitIssue()
    ensures ExtractIssueNumber("bugfix/#1") == Some("#1")
  {
    var b := "bugfix/#1";
    assert IsLeftmostStart(b, 7) by {
      assert forall k :: 0 <= k < 7 ==> b[k] != '#';
    }
    assert b[7..9] == "#1";
    ExtractAt(b, 7, 2);
  }

  /** Branch names without an issue number, as in the extractor's tests, yield nothing. */
  lemma ExtractNoIssue()
    ensures ExtractIssueNumber("main") == None
    ensures ExtractIssueNumber("release/v1.0.0") == None
  {
    NoHashNoIssue("main");
    NoHashNoIssue("release/v1.0.0");
  }

  /** Greedy but bounded: six digits after the `#` yield a five-digit issue number. */
  lemma ExtractStopsAtFiveDigits()
    ensures ExtractIssueNumber("fix/#123456") == Some("#12345")
  {
    var b := "fix/#123456";
    assert IsLeftmostStart(b, 4) by {
      assert forall k :: 0 <= k < 4 ==> b[k] != '#';
    }
    assert IsGreedyMatch(b, 4, 6);
    assert b[4..10] == "#12345" by {
      assert forall k :: 0 <= k < 6 ==> b[4..10][k] == "#12345"[k];
    }
    ExtractAt(b, 4, 6);
  }
}
