/** Column-header clean-up applied to the order table as it is loaded: strip
    surrounding whitespace, lowercase, and turn spaces and slashes into
    underscores, so that "Refunds/Chargebacks" becomes "refunds_chargebacks". */
module Headers {

  /** The characters that Python's `str.strip()` removes: those `str.isspace()`
      accepts. */
  predicate IsSpace(c: char)
  {
    var n := c as int;
    n == 32 || 9 <= n <= 13 || 28 <= n <= 31 || n == 0x85 || n == 0xA0 || n == 0x1680
    || 0x2000 <= n <= 0x200A || n == 0x2028 || n == 0x2029 || n == 0x202F || n == 0x205F
    || n == 0x3000
  }

  /** Drops the leading whitespace: what is left is a suffix of `s` that does
      not start with whitespace, and everything dropped was whitespace. */
  function TrimStart(s: string): (r: string)
    ensures |r| <= |s| && r == s[|s| - |r|..]
    ensures forall i :: 0 <= i < |s| - |r| ==> IsSpace(s[i])
    ensures |r| > 0 ==> !IsSpace(r[0])
  {
    if |s| > 0 && IsSpace(s[0]) then TrimStart(s[1..]) else s
  }

  /** Drops the trailing whitespace: what is left is a prefix of `s` that does
      not end with whitespace, and everything dropped was whitespace. */
  function TrimEnd(s: string): (r: string)
    ensures |r| <= |s| && r == s[..|r|]
    ensures forall i :: |r| <= i < |s| ==> IsSpace(s[i])
    ensures |r| > 0 ==> !IsSpace(r[|r| - 1])
  {
    if |s| > 0 && IsSpace(s[|s| - 1]) then TrimEnd(s[..|s| - 1]) else s
  }

  /** `str.strip()`: the middle slice of `s` between a whitespace-only head and
      a whitespace-only tail, itself neither starting nor ending with
      whitespace. */
  function Strip(s: string): (r: string)
    ensures exists a, b :: StrippedSlice(s, r, a, b)
    ensures EndsClean(r)
  {
    var t := TrimStart(s);
    var r := TrimEnd(t);
    SliceOfSuffix(s, t, r);
    assert |r| > 0 ==> r[0] == t[0];
    r
  }

  /** `r` is the slice `s[a..b]`, and everything before `a` and from `b` on
      is whitespace. */
  predicate StrippedSlice(s: string, r: string, a: int, b: int)
  {
    0 <= a <= b <= |s| && r == s[a..b]
    && (forall i :: 0 <= i < a ==> IsSpace(s[i]))
    && (forall i :: b <= i < |s| ==> IsSpace(s[i]))
  }

  /** Neither the first nor the last character is whitespace. */
  predicate EndsClean(h: string)
  {
    |h| > 0 ==> !IsSpace(h[0]) && !IsSpace(h[|h| - 1])
  }

  /** Trimming the end of a suffix leaves a slice of the whole string, with
      whitespace before it and after it. */
  lemma SliceOfSuffix(s: string, t: string, r: string)
    requires |t| <= |s| && t == s[|s| - |t|..]
    requires forall i :: 0 <= i < |s| - |t| ==> IsSpace(s[i])
    requires |r| <= |t| && r == t[..|r|]
    requires forall i :: |r| <= i < |t| ==> IsSpace(t[i])
    ensures exists a, b :: StrippedSlice(s, r, a, b)
  {
    var a := |s| - |t|;
    var b := a + |r|;
    assert r == s[a..b];
    forall i | b <= i < |s|
      ensures IsSpace(s[i])
    {
      assert s[i] == t[i - a];
    }
    assert StrippedSlice(s, r, a, b);
  }

  /** A string without whitespace at either end is left as it is. */
  lemma StripTrimmed(s: string)
    requires EndsClean(s)
    ensures Strip(s) == s
  {
    assert TrimStart(s) == s;
    assert TrimEnd(s) == s;
  }

  predicate IsUpper(c: char)
  {
    'A' <= c <= 'Z'
  }

  /** No character of `s` is an ASCII capital. */
  predicate NoCapitals(s: string)
  {
    forall i :: 0 <= i < |s| ==> !IsUpper(s[i])
  }

  /** Lowercases an ASCII capital; every other character is kept. */
  function LowerChar(c: char): (d: char)
    ensures !IsUpper(d)
    ensures IsUpper(c) ==> d as int == c as int + 32
    ensures !IsUpper(c) ==> d == c
    ensures IsSpace(d) <==> IsSpace(c)
  {
    if IsUpper(c) then (c as int + 32) as char else c
  }

  /** `str.lower()` on the ASCII letters: same length, no capital left, each
      capital replaced by its lowercase letter (32 code points up), and every
      character that is not a capital unchanged. */
  function Lower(s: string): (r: string)
    ensures |r| == |s|
    ensures NoCapitals(r)
    ensures forall i :: 0 <= i < |s| && IsUpper(s[i]) ==> r[i] as int == s[i] as int + 32
    ensures forall i :: 0 <= i < |s| && !IsUpper(s[i]) ==> r[i] == s[i]
    ensures EndsClean(s) ==> EndsClean(r)
  {
    seq(|s|, i requires 0 <= i < |s| => LowerChar(s[i]))
  }

  /** A string without capitals is its own lowercase. */
  lemma LowerOfLower(s: string)
    requires NoCapitals(s)
    ensures Lower(s) == s
  {
  }

  /** `str.replace(a, b)` for one-character `a` and `b`: same length, no `a`
      left when `b` differs from it, and every other character kept. */
  function Replace(s: string, a: char, b: char): (r: string)
    ensures |r| == |s|
    ensures a != b ==> a !in r
    ensures forall i :: 0 <= i < |s| && s[i] != a ==> r[i] == s[i]
    ensures forall i :: 0 <= i < |s| && s[i] == a ==> r[i] == b
    ensures EndsClean(s) && !IsSpace(b) ==> EndsClean(r)
    ensures NoCapitals(s) && !IsUpper(b) ==> NoCapitals(r)
  {
    seq(|s|, i requires 0 <= i < |s| => if s[i] == a then b else s[i])
  }

  /** Replacing brings in no character other than the replacement. */
  lemma ReplaceKeepsAbsent(s: string, a: char, b: char, c: char)
    requires c != b && c !in s
    ensures c !in Replace(s, a, b)
  {
    var r := Replace(s, a, b);
    forall i | 0 <= i < |r|
      ensures r[i] != c
    {
      assert s[i] in s;
    }
  }

  /** Replacing a character that does not occur changes nothing. */
  lemma ReplaceAbsent(s: string, a: char, b: char)
    requires a !in s
    ensures Replace(s, a, b) == s
  {
  }

  /** A header in its normal form: no whitespace at either end, no capital
      letter, no space and no slash. */
  predicate Normalized(h: string)
  {
    EndsClean(h) && NoCapitals(h) && ' ' !in h && '/' !in h
  }

  /** The header clean-up: strip, lower, then replace spaces and slashes with
      underscores. The result is in normal form and as long as the stripped
      header. */
  function Normalize(h: string): (r: string)
    ensures Normalized(r)
    ensures |r| == |Strip(h)|
  {
    var lowered := Lower(Strip(h));
    ReplacedNormalized(lowered);
    Replace(Replace(lowered, ' ', '_'), '/', '_')
  }

  /** Replacing spaces and slashes in a lowercased, stripped header leaves it
      in normal form. */
  lemma ReplacedNormalized(lowered: string)
    requires EndsClean(lowered) && NoCapitals(lowered)
    ensures Normalized(Replace(Replace(lowered, ' ', '_'), '/', '_'))
  {
    var spaced := Replace(lowered, ' ', '_');
    ReplaceKeepsAbsent(spaced, '/', '_', ' ');
  }

  /** A header already in normal form comes out of the clean-up unchanged. */
  lemma NormalizeFixesNormalized(h: string)
    requires Normalized(h)
    ensures Normalize(h) == h
  {
    StripTrimmed(h);
    LowerOfLower(h);
    ReplaceAbsent(h, ' ', '_');
    ReplaceAbsent(h, '/', '_');
  }

  /** Cleaning a header twice is the same as cleaning it once. */
  lemma NormalizeIdempotent(h: string)
    ensures Normalize(Normalize(h)) == Normalize(h)
  {
    NormalizeFixesNormalized(Normalize(h));
  }
}
