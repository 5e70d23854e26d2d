/** The few Python string operations the chatbot relies on: `str.isspace`,
    `str.strip`, `sep.join(parts)`, substring containment and `str(n)` for
    integers. Strings are sequences of code points. */
module Text {

  /** Python's `str.isspace()` for one code point: the ASCII controls
      TAB..CR and FS..US, space, NEL, NO-BREAK SPACE and the Unicode
      space separators and line/paragraph separators. */
  predicate IsSpace(c: char) {
    c == ' ' || ('\t' <= c <= '\r') || ('\U{1C}' <= c <= '\U{1F}')
    || c == '\U{85}' || c == '\U{A0}' || c == '\U{1680}'
    || ('\U{2000}' <= c <= '\U{200A}') || c == '\U{2028}' || c == '\U{2029}'
    || c == '\U{202F}' || c == '\U{205F}' || c == '\U{3000}'
  }

  /** Every character is whitespace (the empty string included). */
  predicate IsBlank(s: string) {
    forall k :: 0 <= k < |s| ==> IsSpace(s[k])
  }

  predicate StartsWith(s: string, prefix: string) {
    |prefix| <= |s| && s[..|prefix|] == prefix
  }

  predicate EndsWith(s: string, suffix: string) {
    |suffix| <= |s| && s[|s| - |suffix|..] == suffix
  }

  /** `sub` occurs in `s` starting at position `k`. */
  predicate OccursAt(s: string, sub: string, k: int) {
    0 <= k && k + |sub| <= |s| && s[k..k + |sub|] == sub
  }

  /** Python's `sub in s`. */
  predicate Contains(s: string, sub: string) {
    exists k :: 0 <= k <= |s| - |sub| && OccursAt(s, sub, k)
  }

  /** Python's `s.lstrip()` (TrimStartDropsOnlySpace says what it keeps). */
  function TrimStart(s: string): string {
    if s != [] && IsSpace(s[0]) then TrimStart(s[1..]) else s
  }

  /** Python's `s.rstrip()` (TrimEndDropsOnlySpace says what it keeps). */
  function TrimEnd(s: string): string {
    if s != [] && IsSpace(s[|s| - 1]) then TrimEnd(s[..|s| - 1]) else s
  }

  /** Python's `s.strip()`. */
  function Strip(s: string): string {
    TrimEnd(TrimStart(s))
  }

  /** `lstrip` keeps a suffix of `s` that does not start with whitespace and
      removes only whitespace before it. */
  lemma {:induction false} TrimStartDropsOnlySpace(s: string)
    ensures |TrimStart(s)| <= |s| && TrimStart(s) == s[|s| - |TrimStart(s)|..]
    ensures TrimStart(s) != [] ==> !IsSpace(TrimStart(s)[0])
    ensures forall k :: 0 <= k < |s| - |TrimStart(s)| ==> IsSpace(s[k])
  {
    if s != [] && IsSpace(s[0]) {
      var rest := s[1..];
      TrimStartDropsOnlySpace(rest);
      var t := TrimStart(s);
      assert t == TrimStart(rest);
      assert rest[|rest| - |t|..] == s[|s| - |t|..];
      forall k | 0 < k < |s| - |t| ensures IsSpace(s[k]) {
        SpaceAtShiftedIndex(s, rest, 1, k);
      }
    }
  }

  /** `rstrip` keeps a prefix of `s` that does not end with whitespace and
      removes only whitespace after it. */
  lemma {:induction false} TrimEndDropsOnlySpace(s: string)
    ensures |TrimEnd(s)| <= |s| && TrimEnd(s) == s[..|TrimEnd(s)|]
    ensures TrimEnd(s) != [] ==> !IsSpace(TrimEnd(s)[|TrimEnd(s)| - 1])
    ensures forall k :: |TrimEnd(s)| <= k < |s| ==> IsSpace(s[k])
  {
    if s != [] && IsSpace(s[|s| - 1]) {
      var init := s[..|s| - 1];
      TrimEndDropsOnlySpace(init);
      var r := TrimEnd(s);
      assert r == TrimEnd(init);
      assert init[..|r|] == s[..|r|];
      forall k | |r| <= k < |s| - 1 ensures IsSpace(s[k]) {
        SpaceInPrefix(s, init, k);
      }
    }
  }

  /** Whitespace in the suffix `t` of `s` that starts at `i` is whitespace in `s`. */
  lemma SpaceAtShiftedIndex(s: string, t: string, i: int, k: int)
    requires 0 <= i <= k < |s| && t == s[i..] && IsSpace(t[k - i])
    ensures IsSpace(s[k])
  {
    assert s[k] == t[k - i];
  }

  /** Whitespace in a prefix `t` of `s` is whitespace in `s`. */
  lemma SpaceInPrefix(s: string, t: string, k: int)
    requires 0 <= k < |t| <= |s| && t == s[..|t|] && IsSpace(t[k])
    ensures IsSpace(s[k])
  {
    assert s[k] == t[k];
  }

  /** `r` is the slice of `s` at `i` and everything around it is whitespace. */
  predicate IsTrimmedSliceAt(s: string, r: string, i: int) {
    0 <= i && i + |r| <= |s| && r == s[i..i + |r|]
    && (forall k :: 0 <= k < i ==> IsSpace(s[k]))
    && (forall k :: i + |r| <= k < |s| ==> IsSpace(s[k]))
  }

  /** What Strip keeps is the slice of `s` after its leading whitespace. */
  lemma StripIsSlice(s: string)
    ensures |Strip(s)| <= |TrimStart(s)| <= |s|
    ensures Strip(s) == s[|s| - |TrimStart(s)|..|s| - |TrimStart(s)| + |Strip(s)|]
  {
    var t := TrimStart(s);
    var r := TrimEnd(t);
    var i := |s| - |t|;
    TrimStartDropsOnlySpace(s);
    TrimEndDropsOnlySpace(t);
    assert Strip(s) == r;
    assert t == s[i..] && r == t[..|r|];
    PrefixOfSuffix(s, i, |r|);
  }

  /** A prefix of a suffix is a slice. */
  lemma PrefixOfSuffix(s: string, i: nat, n: nat)
    requires i + n <= |s|
    ensures s[i..][..n] == s[i..i + n]
  {
  }

  /** Everything after what Strip keeps is whitespace. */
  lemma StripDropsTrailingSpace(s: string)
    ensures |Strip(s)| <= |TrimStart(s)| <= |s|
    ensures forall k :: |s| - |TrimStart(s)| + |Strip(s)| <= k < |s| ==> IsSpace(s[k])
  {
    var t := TrimStart(s);
    var i := |s| - |t|;
    TrimStartDropsOnlySpace(s);
    TrimEndDropsOnlySpace(t);
    forall k | i + |TrimEnd(t)| <= k < |s| ensures IsSpace(s[k]) {
      SpaceAtShiftedIndex(s, t, i, k);
    }
  }

  /** What Strip keeps neither starts nor ends with whitespace. */
  lemma StripEndsNotSpace(s: string)
    ensures Strip(s) != [] ==> !IsSpace(Strip(s)[0]) && !IsSpace(Strip(s)[|Strip(s)| - 1])
  {
    var t := TrimStart(s);
    var r := TrimEnd(t);
    TrimStartDropsOnlySpace(s);
    TrimEndDropsOnlySpace(t);
    if r != [] {
      assert r[0] == t[0];
    }
  }

  /** Strip removes exactly the whitespace run at either end: what is left is
      the slice of `s` after its leading whitespace, everything before and
      after that slice is whitespace, and it neither starts nor ends with
      whitespace. */
  lemma StripIsTrimmedSlice(s: string)
    ensures IsTrimmedSliceAt(s, Strip(s), |s| - |TrimStart(s)|)
    ensures Strip(s) != [] ==> !IsSpace(Strip(s)[0]) && !IsSpace(Strip(s)[|Strip(s)| - 1])
  {
    TrimStartDropsOnlySpace(s);
    StripIsSlice(s);
    StripDropsTrailingSpace(s);
    StripEndsNotSpace(s);
  }

  /** `s.strip()` is empty exactly when `s` is empty or all whitespace. */
  lemma StripEmptyIffBlank(s: string)
    ensures Strip(s) == [] <==> IsBlank(s)
  {
    var t := TrimStart(s);
    TrimStartDropsOnlySpace(s);
    TrimEndDropsOnlySpace(t);
    if !IsBlank(s) {
      var k :| 0 <= k < |s| && !IsSpace(s[k]);
      assert t[k - (|s| - |t|)] == s[k];
    }
  }

  /** Stripping twice is stripping once. */
  lemma StripIdempotent(s: string)
    ensures Strip(Strip(s)) == Strip(s)
  {
    var r := Strip(s);
    StripIsTrimmedSlice(s);
    if r != [] {
      assert TrimStart(r) == r by {
        assert !IsSpace(r[0]);
      }
      assert TrimEnd(r) == r by {
        assert !IsSpace(r[|r| - 1]);
      }
    }
  }

  /** The three pieces of `a + b + c` sit at its start, right after `a`, and
      at its end. */
  lemma ConcatPieces(a: string, b: string, c: string)
    ensures StartsWith(a + b + c, a)
    ensures OccursAt(a + b + c, b, |a|)
    ensures EndsWith(a + b + c, c)
  {
    var s := a + b + c;
    assert s[..|a|] == a;
    assert s[|a|..|a| + |b|] == b;
    assert s[|s| - |c|..] == c;
  }

  /** A text ending with `t + u` ends with `u`, and contains what it ends
      with. */
  lemma EndsWithTail(s: string, t: string, u: string)
    requires EndsWith(s, t + u)
    ensures EndsWith(s, u) && Contains(s, u)
  {
    var k := |s| - |u|;
    assert s[|s| - |t + u|..][|t|..] == u;
    assert s[k..] == u;
    assert OccursAt(s, u, k);
  }

  /** Python's `sep.join(parts)`. */
  function Join(parts: seq<string>, sep: string): string {
    if parts == [] then ""
    else if |parts| == 1 then parts[0]
    else parts[0] + sep + Join(parts[1..], sep)
  }

  /** With a non-empty separator the joined text is empty exactly when there
      is nothing to join or the only part is empty. */
  lemma JoinEmptyIff(parts: seq<string>, sep: string)
    requires sep != ""
    ensures Join(parts, sep) == "" <==> parts == [] || parts == [""]
  {
    if |parts| >= 2 {
      assert |Join(parts, sep)| >= |sep|;
    }
  }

  /** Every joined part appears verbatim in the result. */
  lemma {:induction false} JoinContainsPart(parts: seq<string>, sep: string, i: int)
    requires 0 <= i < |parts|
    ensures Contains(Join(parts, sep), parts[i])
  {
    var j := Join(parts, sep);
    if |parts| == 1 {
      assert OccursAt(j, parts[0], 0);
    } else if i == 0 {
      assert j[0..|parts[0]|] == parts[0];
      assert OccursAt(j, parts[0], 0);
    } else {
      JoinContainsPart(parts[1..], sep, i - 1);
      var rest := Join(parts[1..], sep);
      var k :| 0 <= k <= |rest| - |parts[i]| && OccursAt(rest, parts[i], k);
      assert rest[k..k + |parts[i]|] == parts[i];
      var off := |parts[0] + sep|;
      assert j == parts[0] + sep + rest;
      assert j[off + k..off + k + |parts[i]|] == rest[k..k + |parts[i]|];
      assert OccursAt(j, parts[i], off + k);
    }
  }

  function DigitChar(d: int): char
    requires 0 <= d < 10
  {
    ('0' as int + d) as char
  }

  /** Python's `str(n)` for a non-negative integer: its decimal digits,
      without leading zeros. */
  function DecimalString(n: nat): (r: string)
    ensures r != [] && (forall k :: 0 <= k < |r| ==> '0' <= r[k] <= '9')
    ensures |r| > 1 ==> r[0] != '0'
  {
    if n < 10 then [DigitChar(n)] else DecimalString(n / 10) + [DigitChar(n % 10)]
  }

  /** The number a string of decimal digits spells, read left to right:
      each digit multiplies what came before it by ten and adds itself. */
  function DigitsValue(s: string): nat
    requires forall k :: 0 <= k < |s| ==> '0' <= s[k] <= '9'
  {
    if s == [] then 0 else DigitsValue(s[..|s| - 1]) * 10 + (s[|s| - 1] as int - '0' as int)
  }

  /** `str(n)` spells `n`: reading its digits back gives `n` again. */
  lemma {:induction false} DecimalStringSpellsValue(n: nat)
    ensures DigitsValue(DecimalString(n)) == n
  {
    var r := DecimalString(n);
    if n >= 10 {
      DecimalStringSpellsValue(n / 10);
      assert r[..|r| - 1] == DecimalString(n / 10);
    }
  }

  /** Python's `str(i)` for any integer. */
  function IntString(i: int): string {
    if i < 0 then "-" + DecimalString(-i) else DecimalString(i)
  }
}
