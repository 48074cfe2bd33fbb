# commit-issue-prefix, modelled in Dafny

`commit-issue-prefix` is a git `commit-msg` style hook. It asks git for the current
branch name, finds an issue number in it with a regular expression (by default
`#\d{1,5}`), formats it with a template (by default `[{}]`), and writes that prefix,
followed by one space, in front of the commit message, unless the message's first line
already contains it. Every path that returns ends with exit code 0.

This project models that logic, all of it in `commit_issue_prefix/main.py`:

- `pystr.dfy` (module `PyStr`): the Python string operations the hook uses. These are
  `split("\n", maxsplit=1)[0]`, `strip()`, `upper()`, the `in` test on strings, and the
  character classes of `str.isspace` and `\d`.
- `issue.dfy` (module `IssueExtract`): `extract_issue_number` with the default pattern.
  `FindAll` is a hand-written `re.findall` for `#\d{1,5}`. `FirstMatchUpper` is lines
  41-44 applied to a match list. `ExtractIssueNumber` composes the two. The result is
  characterised declaratively: the greedy match at the leftmost `#` followed by a digit.
- `message.dfy` (module `MessageRewrite`): `update_commit_message`. The message file is
  the class `MessageFile`, whose `content` field stands for the file's text, and `Update`
  is the method that reads and possibly rewrites it. `Rewritten` is the pure function
  that specifies it. The lemmas prove idempotence for trimmed one-line prefixes, prove
  that idempotence fails for prefixes ending in whitespace, and restate the rewriter's
  tests for any message.
- `hook.dfy` (module `Hook`): `main` from line 96 on. The branch that git reports is an
  input `Option<string>`. `RunHook` always returns 0. `HookResult` is what the message
  becomes. The lemmas prove that the hook is idempotent and that the prefix it writes
  is `[` + the leftmost issue number + `]`.
- `wrappers.dfy` (module `Wrappers`): `Option`, for Python's `str | None`.

Two details of the code matter to what is proved. The first line of the message is
`strip()`ped at both ends before the `in` test (main.py:58). The prefix is always
prepended, never appended (main.py:64).

## Model

| member | source | states |
|---|---|---|
| PyStr.FirstLine | commit_issue_prefix/main.py:58 | the first line is a prefix of the text, holds no line feed, and is followed by a line feed or the end of the text |
| PyStr.FirstLineUnique | commit_issue_prefix/main.py:58 | any prefix without a line feed that is followed by a line feed or the end of the text is the first line |
| PyStr.FirstLineAppend | commit_issue_prefix/main.py:58 | a head without a line feed is kept whole in the first line of head + rest |
| PyStr.TrimStart | commit_issue_prefix/main.py:58 | the result is a suffix of the input, does not start with whitespace, and only whitespace was removed |
| PyStr.TrimEnd | commit_issue_prefix/main.py:58 | the result is a prefix of the input, does not end with whitespace, and only whitespace was removed |
| PyStr.Strip | commit_issue_prefix/main.py:58 | `strip()` never lengthens a string, its result neither starts nor ends with whitespace, and it is empty exactly when the string is all whitespace (built from `TrimStart` and `TrimEnd`) |
| PyStr.StripKeepsTrimmedHead | commit_issue_prefix/main.py:58 | `strip()` of p + t still starts with p when p is non-empty and has no whitespace at either end |
| PyStr.StripDropsTrailingSpace | commit_issue_prefix/main.py:58 | `strip()` removes at least the n whitespace characters that end a string |
| PyStr.StripKeepsTrimmed | commit_issue_prefix/main.py:58 | `strip()` leaves a string without whitespace at its ends unchanged |
| PyStr.Contains | commit_issue_prefix/main.py:61 | `needle in hay` holds only when the needle is no longer than hay; `ContainsIff` characterises it by position |
| PyStr.ContainsIff | commit_issue_prefix/main.py:61 | `needle in hay` holds exactly when some position of hay starts with needle |
| PyStr.ContainsNeedsHead | commit_issue_prefix/main.py:61 | a needle whose first character is absent from hay does not occur in it |
| PyStr.Upper | commit_issue_prefix/main.py:43 | `upper()` keeps the length, leaves no lower-case letter, raises each lower-case letter to its capital and leaves every other character as it was; `UpperKeeps` is the identity case |
| PyStr.UpperKeeps | commit_issue_prefix/main.py:43 | `upper()` leaves a string without lower-case letters unchanged |
| IssueExtract.DigitRun | commit_issue_prefix/main.py:85 | `\d{0,max}` takes at most max characters, all of them digits, and stops only at max, at the end, or before a non-digit |
| IssueExtract.MatchLength | commit_issue_prefix/main.py:85 | a match of `#\d{1,5}` starts exactly at a `#` followed by a digit, and its length is the unique greedy match length |
| IssueExtract.FindAll | commit_issue_prefix/main.py:41 | every element of the `re.findall` list is a `#` followed by one to five digits |
| IssueExtract.FindAllEmpty | commit_issue_prefix/main.py:41-42 | the match list is empty exactly when no match starts in the scanned range |
| IssueExtract.FindAllHead | commit_issue_prefix/main.py:41-43 | a non-empty match list starts with the match at the leftmost start in the scanned range |
| IssueExtract.FirstMatchUpper | commit_issue_prefix/main.py:42-44 | the result is None exactly when the match list is empty; when the first match is a `#` followed by one to five digits, `upper()` leaves it alone and it is returned as found |
| IssueExtract.ExtractIssueNumber | commit_issue_prefix/main.py:31-44 | the result is None exactly when no `#` in the branch is followed by a digit; otherwise it is the greedy match at the leftmost such `#`, and is an issue token |
| IssueExtract.ExtractAt | commit_issue_prefix/main.py:41-43 | given the leftmost start and a greedy match there, the result is exactly that slice of the branch |
| IssueExtract.NoHashNoIssue | commit_issue_prefix/main.py:41-44 | a branch without `#` yields None |
| IssueExtract.ExtractFiveDigitIssue | tests/test_main.py:13-27 | `feature/#12345-some-feature` yields `#12345` |
| IssueExtract.ExtractOneDigitIssue | tests/test_main.py:13-27 | `bugfix/#1` yields `#1` |
| IssueExtract.ExtractNoIssue | tests/test_main.py:29-41 | `main` and `release/v1.0.0` yield None |
| IssueExtract.ExtractStopsAtFiveDigits | commit_issue_prefix/main.py:85 | `fix/#123456` yields `#12345`: the greedy match stops after five digits |
| MessageRewrite.HasPrefix | commit_issue_prefix/main.py:58-61 | the skip test always holds for the empty prefix, and holds only for prefixes no longer than the first line; `Rewritten`'s contract and `RewriteAddsPrefix` connect it to the rewrite |
| MessageRewrite.Rewritten | commit_issue_prefix/main.py:57-65 | the message is unchanged exactly when its stripped first line contains the prefix; the old message is always kept verbatim at the end, and a changed message starts with the prefix and a space |
| MessageRewrite.MessageFile.Update | commit_issue_prefix/main.py:47-65 | returns True exactly when the stripped first line lacked the prefix, and the file's new content is the rewritten message |
| MessageRewrite.FirstLineAfterPrefix | commit_issue_prefix/main.py:58-64 | the first line of prefix + " " + text is the prefix, a space and the old first line, for a prefix without a line feed |
| MessageRewrite.RewriteAddsPrefix | commit_issue_prefix/main.py:58-64 | after one rewrite with a trimmed one-line prefix, the skip test finds the prefix |
| MessageRewrite.RewriteIdempotent | commit_issue_prefix/main.py:58-64 | rewriting twice with a trimmed one-line prefix gives the same message as rewriting once |
| MessageRewrite.PaddedPrefixIsLost | commit_issue_prefix/main.py:58-61 | for a one-line prefix ending in whitespace, prefix + " " fails the skip test |
| MessageRewrite.RewriteRepeatsPaddedPrefix | commit_issue_prefix/main.py:58-64 | with a prefix ending in whitespace, a second rewrite of an empty message changes it again |
| MessageRewrite.RewriteAddsToPlainMessage | tests/test_main.py:52-60 | a message whose first line lacks the prefix's first character becomes prefix + " " + message |
| MessageRewrite.RewriteSkipsPrefixedMessage | tests/test_main.py:62-70 | a message already starting with a trimmed prefix and a space is left unchanged |
| MessageRewrite.RewriteEmptyMessage | tests/test_main.py:72-80 | an empty message becomes the prefix and a space |
| Hook.RunHook | commit_issue_prefix/main.py:96-109 | always returns 0, and the message file ends as HookResult of the branch and the old message |
| Hook.FormatPrefix | commit_issue_prefix/main.py:106 | `[{}]` puts the issue number between two characters it can be read back from, and applied to an issue token gives a one-line prefix with no whitespace at either end |
| Hook.HookResult | commit_issue_prefix/main.py:96-107 | the hook only ever prepends: the old message is kept verbatim at the end, and the message changes only when a branch is known and holds an issue number; `HookSkipsWithoutIssue`, `HookPrefixesLeftmostIssue` and `HookIdempotent` say what it does in each case |
| Hook.HookSkipsWithoutIssue | commit_issue_prefix/main.py:96-104 | with no branch, an empty branch, or no `#` followed by a digit, the message is unchanged |
| Hook.HookPrefixesLeftmostIssue | commit_issue_prefix/main.py:101-107 | on a branch whose leftmost match starts at j, the message is rewritten with `[` + the greedy match at j + `]` |
| Hook.HookIdempotent | commit_issue_prefix/main.py:96-109 | running the hook twice on the same branch leaves the message as running it once |

## Left out

- `get_current_branch` (main.py:12-28) runs `git symbolic-ref` in a subprocess. Its result is the `branch` input of `RunHook` and `HookResult`. The `strip()` of its output happens before the input.
- Argument parsing (main.py:74-94) is not modelled. The model fixes the two options at their defaults: the pattern `#\d{1,5}` and the template `[{}]`.
- General `re.findall` with user patterns is not modelled. This covers capture groups and empty matches. Under the default pattern a match is never empty, so the empty-string half of `if not issue_number` (main.py:102) cannot happen, and `RunHook` tests only for None.
- General `str.format` is not modelled. `FormatPrefix` is the single-`{}` default template only.
- File I/O (main.py:57, 64) becomes the `content` field of `MessageFile`. UTF-8 decoding and encoding are not modelled.
- `IsDigit` accepts only the ASCII digits. Python's `\d` also matches other Unicode decimal digits.
- `Upper` maps only the ASCII letters. Python's `upper()` covers all of Unicode, but on default-pattern matches both are the identity (`UpperKeeps`).
- `IsSpace` is the fixed list of code points that CPython's `str.isspace` accepts. Later Unicode versions could change that list.
- RunHook: models only the paths that return. The exceptions that escape `main` are dropped: `FileNotFoundError` from `subprocess.run` when git is missing (main.py:19; only `CalledProcessError` is caught, main.py:26), and `UnicodeDecodeError` or `OSError` from `read_text` and `write_text` (main.py:57, 64).
- MessageFile.Update: `content` is the text `read_text` returns, after universal-newline translation, not the file's bytes. The errors `read_text` and `write_text` can raise (main.py:57, 64) are not modelled, so "kept verbatim" holds of that text.
