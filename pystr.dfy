/**
 * The Python `str` operations the hook relies on: `str.split("\n", maxsplit=1)[0]`,
 * `str.strip()`, `str.upper()`, the `in` operator on strings, and the character
 * classes behind `str.isspace` and the regular-expression class `\d`.
 */
module PyStr {

  /** The characters `str.isspace` accepts, and so the ones `str.strip()` removes. */
  predicate IsSpace(c: char) {
    var n := c as int;
    (0x09 <= n <= 0x0D) || (0x1C <= n <= 0x20) || n == 0x85 || n == 0xA0 || n == 0x1680
    || (0x2000 <= n <= 0x200A) || n == 0x2028 || n == 0x2029 || n == 0x202F
    || n == 0x205F || n == 0x3000
  }

  /** The regular-expression class `\d`, restricted to the ASCII digits. */
  predicate IsDigit(c: char) {
    '0' <= c <= '9'
  }

  predicate IsLower(c: char) {
    'a' <= c <= 'z'
  }

  function UpperChar(c: char): char {
    if IsLower(c) then (c as int - 32) as char else c
  }

  /**
   * `s.upper()`, for the ASCII letters: same length, no lower-case letter left, each
   * lower-case letter raised to its capital and every other character untouched.
   */
  function Upper(s: string): (r: string)
    ensures |r| == |s|
    ensures forall i :: 0 <= i < |r| ==> !IsLower(r[i])
    ensures forall i :: 0 <= i < |s| ==>
      if IsLower(s[i]) then 'A' <= r[i] <= 'Z' && r[i] as int == s[i] as int - 32 else r[i] == s[i]
  {
    seq(|s|, i requires 0 <= i < |s| => UpperChar(s[i]))
  }

  /** `upper()` leaves a string without lower-case letters as it is. */
  lemma UpperKeeps(s: string)
    requires forall i :: 0 <= i < |s| ==> !IsLower(s[i])
    ensures Upper(s) == s
  {
    assert forall i :: 0 <= i < |s| ==> Upper(s)[i] == s[i];
  }

  /**
   * `s.split("\n", maxsplit=1)[0]`: everything before the first line feed, or all of
   * `s` when it has none.
   */
  function FirstLine(s: string): (r: string)
    ensures r <= s
    ensures '\n' !in r
    ensures |r| < |s| ==> s[|r|] == '\n'
  {
    if s == [] || s[0] == '\n' then [] else [s[0]] + FirstLine(s[1..])
  }

  /**
   * The three properties of `FirstLine` pin it down: any prefix without a line feed that
   * is followed by a line feed or the end is the first line.
   */
  lemma FirstLineUnique(s: string, r: string)
    requires r <= s && '\n' !in r && (|r| < |s| ==> s[|r|] == '\n')
    ensures FirstLine(s) == r
  {
    var f := FirstLine(s);
    assert |f| == |r|;
  }

  /** A head without a line feed is kept whole in the first line of what follows it. */
  lemma FirstLineAppend(a: string, b: string)
    requires '\n' !in a
    ensures FirstLine(a + b) == a + FirstLine(b)
  {
    var s, f := a + b, FirstLine(b);
    var r := a + f;
    assert r <= s by {
      assert forall k :: |a| <= k < |r| ==> r[k] == f[k - |a|] == b[k - |a|] == s[k];
    }
    assert '\n' !in r by {
      assert forall k :: |a| <= k < |r| ==> r[k] == f[k - |a|];
      assert forall k :: 0 <= k < |a| ==> r[k] == a[k];
    }
    if |r| < |s| {
      assert s[|r|] == b[|f|];
    }
    FirstLineUnique(s, r);
  }

  /** Removes leading whitespace (the left half of `str.strip()`). */
  function TrimStart(s: string): (r: string)
    ensures |r| <= |s| && r == s[|s| - |r|..]
    ensures r == [] || !IsSpace(r[0])
    ensures forall i :: 0 <= i < |s| - |r| ==> IsSpace(s[i])
  {
    if s == [] || !IsSpace(s[0]) then s else TrimStart(s[1..])
  }

  /** Removes trailing whitespace (the right half of `str.strip()`). */
  function TrimEnd(s: string): (r: string)
    ensures r <= s
    ensures r == [] || !IsSpace(r[|r| - 1])
    ensures forall i :: |r| <= i < |s| ==> IsSpace(s[i])
  {
    if s == [] || !IsSpace(s[|s| - 1]) then s else TrimEnd(s[..|s| - 1])
  }

  /**
   * `s.strip()`: whitespace removed at both ends. The result neither starts nor ends
   * with whitespace, and it is empty exactly when `s` is all whitespace.
   */
  function Strip(s: string): (r: string)
    ensures |r| <= |s|
    ensures r == [] || (!IsSpace(r[0]) && !IsSpace(r[|r| - 1]))
    ensures r == [] <==> forall i :: 0 <= i < |s| ==> IsSpace(s[i])
  {
    TrimEnd(TrimStart(s))
  }

  /** `needle in hay`: `needle` occurs as a contiguous part of `hay`. */
  predicate Contains(hay: string, needle: string)
    ensures Contains(hay, needle) ==> |needle| <= |hay|
    decreases |hay|
  {
    needle <= hay || (hay != [] && Contains(hay[1..], needle))
  }

  /** `Contains` is "some position of `hay` starts with `needle`". */
  lemma {:induction false} ContainsIff(hay: string, needle: string)
    ensures Contains(hay, needle) <==> exists i :: 0 <= i <= |hay| && needle <= hay[i..]
    decreases |hay|
  {
    if needle <= hay {
      assert hay[0..] == hay;
    } else if hay != [] {
      ContainsIff(hay[1..], needle);
      if Contains(hay[1..], needle) {
        var i :| 0 <= i <= |hay| - 1 && needle <= hay[1..][i..];
        assert hay[1..][i..] == hay[i + 1..];
      }
      if exists i :: 0 <= i <= |hay| && needle <= hay[i..] {
        var i :| 0 <= i <= |hay| && needle <= hay[i..];
        assert i != 0;
        assert hay[1..][i - 1..] == hay[i..];
      }
    }
  }

  /** A string whose first character is absent from `hay` does not occur in `hay`. */
  lemma {:induction false} ContainsNeedsHead(hay: string, needle: string)
    requires needle != [] && needle[0] !in hay
    ensures !Contains(hay, needle)
    decreases |hay|
  {
    if hay != [] {
      assert hay[0] in hay;
      assert forall c :: c in hay[1..] ==> c in hay;
      ContainsNeedsHead(hay[1..], needle);
    }
  }

  /**
   * A non-empty string with no whitespace at either end survives `strip()` of anything
   * it starts: `Strip(p + t)` still starts with `p`.
   */
  lemma StripKeepsTrimmedHead(p: string, t: string)
    requires p != [] && !IsSpace(p[0]) && !IsSpace(p[|p| - 1])
    ensures p <= Strip(p + t)
  {
    var s := p + t;
    assert TrimStart(s) == s by {
      assert s[0] == p[0];
    }
    assert s[|p| - 1] == p[|p| - 1];
  }

  /** `strip()` removes at least the `n` whitespace characters that end a string. */
  lemma StripDropsTrailingSpace(s: string, n: nat)
    requires n <= |s| && forall k :: |s| - n <= k < |s| ==> IsSpace(s[k])
    ensures |Strip(s)| <= |s| - n
  {
    var front := TrimStart(s);
    var r := TrimEnd(front);
  }

  /** `strip()` leaves a string without whitespace at its ends as it is. */
  lemma StripKeepsTrimmed(s: string)
    requires s == [] || (!IsSpace(s[0]) && !IsSpace(s[|s| - 1]))
    ensures Strip(s) == s
  {
    if s != [] {
      StripKeepsTrimmedHead(s, []);
      assert s + [] == s;
    }
  }
}
