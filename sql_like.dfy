/** SQLite's `LIKE` operator as the answer cache uses it: `%` matches any run
    of characters, `_` matches exactly one, there is no escape character,
    and letters compare equal ignoring case only within ASCII (SQLite's
    default, `case_sensitive_like` off). */
module SqlLike {
  import opened Text

  /** SQLite folds only `A`..`Z` for LIKE. */
  function AsciiLower(c: char): (r: char)
    ensures 'A' <= c <= 'Z' ==> 'a' <= r <= 'z' && r as int == c as int + 32
    ensures !('A' <= c <= 'Z') ==> r == c
  {
    if 'A' <= c <= 'Z' then (c as int + 32) as char else c
  }

  predicate SameIgnoringAsciiCase(a: char, b: char) {
    AsciiLower(a) == AsciiLower(b)
  }

  /** `s LIKE p`. */
  predicate Like(s: string, p: string)
    decreases |s| + |p|
  {
    if p == [] then s == []
    else if p[0] == '%' then Like(s, p[1..]) || (s != [] && Like(s[1..], p))
    else s != [] && (p[0] == '_' || SameIgnoringAsciiCase(s[0], p[0])) && Like(s[1..], p[1..])
  }

  /** The pattern `%q%` the cache binds for a lookup of `q`. */
  function ContainsPattern(q: string): string {
    "%" + q + "%"
  }

  /** `stored LIKE '%' || q || '%'`: whether a stored question answers a
      lookup of `q`. */
  predicate Matches(stored: string, q: string) {
    Like(stored, ContainsPattern(q))
  }

  /** `q` holds neither of LIKE's wildcards. */
  predicate IsPlain(q: string) {
    forall k :: 0 <= k < |q| ==> q[k] != '%' && q[k] != '_'
  }

  /** `s[k..k + |q|]` spells `q` up to ASCII case. */
  predicate SameIgnoringAsciiCaseAt(s: string, q: string, k: int) {
    0 <= k && k + |q| <= |s| && forall j :: 0 <= j < |q| ==> SameIgnoringAsciiCase(s[k + j], q[j])
  }

  predicate ContainsIgnoringAsciiCase(s: string, q: string) {
    exists k :: 0 <= k <= |s| - |q| && SameIgnoringAsciiCaseAt(s, q, k)
  }

  /** `%` alone matches every text. */
  lemma {:induction false} PercentMatchesAll(s: string)
    ensures Like(s, "%")
  {
    assert "%"[1..] == "";
    if s != [] {
      PercentMatchesAll(s[1..]);
    }
  }

  /** A leading `%` may swallow any prefix. */
  lemma {:induction false} PercentSkipsPrefix(a: string, b: string, r: string)
    requires Like(b, r)
    ensures Like(a + b, "%" + r)
  {
    assert ("%" + r)[1..] == r;
    if a == [] {
      assert a + b == b;
    } else {
      PercentSkipsPrefix(a[1..], b, r);
      assert (a + b)[1..] == a[1..] + b;
    }
  }

  /** Every pattern matches its own text (each `%` matching the `%`
      character, each `_` the `_`), followed by anything. */
  lemma {:induction false} PatternMatchesItself(q: string, y: string)
    ensures Like(q + y, q + "%")
  {
    if q == [] {
      PercentMatchesAll(y);
      assert q + y == y;
      assert q + "%" == "%";
    } else {
      PatternMatchesItself(q[1..], y);
      var s, p := q + y, q + "%";
      assert s[1..] == q[1..] + y;
      assert p[1..] == q[1..] + "%";
      assert s[0] == p[0] == q[0];
      if q[0] == '%' {
        assert Like(s[1..], p[1..]);
        assert Like(s[1..], p);
      }
    }
  }

  /** Substring containment is enough for a cache hit: if the stored question
      contains `q` then `stored LIKE '%q%'`, whatever `q` holds. */
  lemma ContainsImpliesMatches(s: string, q: string)
    requires Contains(s, q)
    ensures Matches(s, q)
  {
    var k :| 0 <= k <= |s| - |q| && OccursAt(s, q, k);
    var y := s[k + |q|..];
    PatternMatchesItself(q, y);
    PercentSkipsPrefix(s[..k], q + y, q + "%");
    assert s == s[..k] + (q + y);
    assert ContainsPattern(q) == "%" + (q + "%");
  }

  /** A leading `%` matches exactly when the rest matches some suffix. */
  lemma {:induction false} LeadingPercentFindsSuffix(s: string, r: string)
    requires Like(s, "%" + r)
    ensures exists k :: 0 <= k <= |s| && Like(s[k..], r)
    decreases |s|
  {
    var p := "%" + r;
    assert p[1..] == r;
    if Like(s, r) {
      assert s[0..] == s;
    } else {
      LeadingPercentFindsSuffix(s[1..], r);
      var k :| 0 <= k <= |s[1..]| && Like(s[1..][k..], r);
      assert s[1..][k..] == s[k + 1..];
    }
  }

  /** A wildcard-free pattern followed by `%` matches exactly the texts that
      begin with it, up to ASCII case. */
  lemma {:induction false} PlainPrefixMatches(t: string, q: string)
    requires IsPlain(q) && Like(t, q + "%")
    ensures SameIgnoringAsciiCaseAt(t, q, 0)
  {
    if q != [] {
      var p := q + "%";
      assert p[0] == q[0];
      assert p[1..] == q[1..] + "%";
      PlainPrefixMatches(t[1..], q[1..]);
      forall j | 0 <= j < |q| ensures SameIgnoringAsciiCase(t[j], q[j]) {
        if j > 0 {
          assert SameIgnoringAsciiCase(t[1..][j - 1], q[1..][j - 1]);
        }
      }
    }
  }

  /** The converse of PlainPrefixMatches. */
  lemma {:induction false} SameTextMatchesPlainPrefix(t: string, q: string, y: string)
    requires IsPlain(q) && SameIgnoringAsciiCaseAt(t, q, 0) && |t| == |q|
    ensures Like(t + y, q + "%")
  {
    if q == [] {
      PercentMatchesAll(y);
      assert t + y == y;
      assert q + "%" == "%";
    } else {
      var s, p := t + y, q + "%";
      assert s[1..] == t[1..] + y;
      assert p[1..] == q[1..] + "%";
      assert SameIgnoringAsciiCase(s[0], p[0]);
      forall j | 0 <= j < |q[1..]| ensures SameIgnoringAsciiCase(t[1..][j], q[1..][j]) {
        assert SameIgnoringAsciiCase(t[j + 1], q[j + 1]);
      }
      SameTextMatchesPlainPrefix(t[1..], q[1..], y);
    }
  }

  /** For a query without wildcards, a stored question is a cache hit exactly
      when it contains the query up to ASCII case. */
  lemma PlainMatchesIff(s: string, q: string)
    requires IsPlain(q)
    ensures Matches(s, q) <==> ContainsIgnoringAsciiCase(s, q)
  {
    if Matches(s, q) {
      PlainMatchFindsQuery(s, q);
    }
    if ContainsIgnoringAsciiCase(s, q) {
      var k :| 0 <= k <= |s| - |q| && SameIgnoringAsciiCaseAt(s, q, k);
      QueryFoundMatches(s, q, k);
    }
  }

  lemma PlainMatchFindsQuery(s: string, q: string)
    requires IsPlain(q) && Matches(s, q)
    ensures ContainsIgnoringAsciiCase(s, q)
  {
    assert ContainsPattern(q) == "%" + (q + "%");
    LeadingPercentFindsSuffix(s, q + "%");
    var k :| 0 <= k <= |s| && Like(s[k..], q + "%");
    PlainPrefixMatches(s[k..], q);
    forall j | 0 <= j < |q| ensures SameIgnoringAsciiCase(s[k + j], q[j]) {
      assert s[k..][j] == s[k + j];
    }
    assert SameIgnoringAsciiCaseAt(s, q, k);
  }

  lemma QueryFoundMatches(s: string, q: string, k: int)
    requires IsPlain(q) && SameIgnoringAsciiCaseAt(s, q, k)
    ensures Matches(s, q)
  {
    var t := s[k..k + |q|];
    forall j | 0 <= j < |q| ensures SameIgnoringAsciiCase(t[j], q[j]) {
      assert t[j] == s[k + j];
    }
    SameTextMatchesPlainPrefix(t, q, s[k + |q|..]);
    PercentSkipsPrefix(s[..k], t + s[k + |q|..], q + "%");
    assert s == s[..k] + (t + s[k + |q|..]);
    assert ContainsPattern(q) == "%" + (q + "%");
  }

  /** A lookup of `_` hits every non-empty stored question. */
  lemma UnderscoreMatchesAnyNonEmpty(s: string)
    requires s != []
    ensures Matches(s, "_")
  {
    PercentMatchesAll(s[1..]);
    assert "_%"[1..] == "%";
    assert Like(s, "_%");
    PercentSkipsPrefix([], s, "_%");
    assert [] + s == s;
    assert ContainsPattern("_") == "%" + "_%";
  }

  /** Letters are compared without regard to ASCII case. */
  lemma MatchIgnoresAsciiCase()
    ensures Matches("Capital of FRANCE", "france")
  {
    var s, q := "Capital of FRANCE", "france";
    assert IsPlain(q);
    assert SameIgnoringAsciiCaseAt(s, q, 11);
    PlainMatchesIff(s, q);
  }
}
