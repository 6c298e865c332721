/**
 * The email check shared by the whitelist and admin actions and the whitelist
 * dialog: `/^[^\s@]+@[^\s@]+\.[^\s@]+$/.test(email)`.
 *
 * MatchesEmailRegex states the pattern's shape literally (three non-empty runs
 * of `[^\s@]` around an `@` and a `.`); IsValidEmail is the executable check,
 * written as the four conditions the pattern amounts to. They are proved equal.
 */
module EmailRule {
  import opened JsText

  /** A character of the class `[^\s@]`. */
  predicate Plain(c: char) {
    !IsWhitespace(c) && c != '@'
  }

  /** One run of `[^\s@]` (possibly empty; the `+` is checked by the caller). */
  predicate AllPlain(t: string) {
    forall k :: 0 <= k < |t| ==> Plain(t[k])
  }

  /** `s` splits as A `@` B `.` C, with the `@` at `i`, the `.` at `j`, and A, B, C non-empty runs of `[^\s@]`. */
  ghost predicate SplitsAsEmail(s: string, i: int, j: int) {
    && 0 < i && i + 1 < j && j + 1 < |s|
    && s[i] == '@' && s[j] == '.'
    && AllPlain(s[..i]) && AllPlain(s[i + 1..j]) && AllPlain(s[j + 1..])
  }

  /** The regex accepts `s`. */
  ghost predicate MatchesEmailRegex(s: string) {
    exists i, j :: SplitsAsEmail(s, i, j)
  }

  /** `d` has a '.' that is neither its first nor its last character. */
  predicate HasInnerDot(d: string) {
    exists p :: 0 < p < |d| - 1 && d[p] == '.'
  }

  /**
   * The executable check: exactly one '@', no whitespace, a non-empty part
   * before the '@', and a domain with an inner '.'.
   */
  predicate IsValidEmail(s: string) {
    var local := BeforeFirst(s, '@');
    && multiset(s)['@'] == 1
    && (forall k :: 0 <= k < |s| ==> !IsWhitespace(s[k]))
    && |local| > 0
    && |local| < |s|
    && HasInnerDot(s[|local| + 1..])
  }

  /** The split of `s` at index `i` recombines to `s`. */
  lemma MultisetSplit(s: string, i: int)
    requires 0 <= i <= |s|
    ensures multiset(s) == multiset(s[..i]) + multiset(s[i..])
  {
    assert s == s[..i] + s[i..];
  }

  /** The '@' found by BeforeFirst is at `i` when `s[..i]` holds none and `s[i]` is one. */
  lemma FirstAt(s: string, i: int)
    requires 0 <= i < |s| && s[i] == '@' && '@' !in s[..i]
    ensures |BeforeFirst(s, '@')| == i
  {
  }

  /** A slice whose every character is in `[^\s@]` is a run of them. */
  lemma PlainSlice(s: string, lo: int, hi: int)
    requires 0 <= lo <= hi <= |s|
    requires forall k :: lo <= k < hi ==> Plain(s[k])
    ensures AllPlain(s[lo..hi])
  {
    assert forall k :: 0 <= k < hi - lo ==> s[lo..hi][k] == s[lo + k];
  }

  /** The regex's shape implies the executable check. */
  lemma ShapeIsValid(s: string, i: int, j: int)
    requires SplitsAsEmail(s, i, j)
    ensures IsValidEmail(s)
  {
    var a, b, c := s[..i], s[i + 1..j], s[j + 1..];
    assert s == a + [s[i]] + b + [s[j]] + c;
    assert '@' !in a by { assert forall k :: 0 <= k < |a| ==> Plain(a[k]); }
    assert '@' !in b by { assert forall k :: 0 <= k < |b| ==> Plain(b[k]); }
    assert '@' !in c by { assert forall k :: 0 <= k < |c| ==> Plain(c[k]); }
    assert multiset(s) == multiset(a) + multiset{'@'} + multiset(b) + multiset{'.'} + multiset(c);
    assert multiset(s)['@'] == 1;
    forall k | 0 <= k < |s| ensures !IsWhitespace(s[k]) {
      if k < i { assert s[k] == a[k]; }
      else if i < k < j { assert s[k] == b[k - i - 1]; }
      else if j < k { assert s[k] == c[k - j - 1]; }
    }
    FirstAt(s, i);
    var d := s[i + 1..];
    assert d[j - i - 1] == '.';
  }

  /** The executable check implies the regex's shape. */
  lemma ValidHasShape(s: string)
    requires IsValidEmail(s)
    ensures MatchesEmailRegex(s)
  {
    var i := |BeforeFirst(s, '@')|;
    var d := s[i + 1..];
    var p :| 0 < p < |d| - 1 && d[p] == '.';
    var j := i + 1 + p;
    assert s[j] == '.';
    // no second '@' after the first one
    MultisetSplit(s, i + 1);
    assert s[..i + 1] == s[..i] + [s[i]];
    assert multiset(s[..i + 1])['@'] >= 1;
    assert multiset(d)['@'] == 0;
    assert '@' !in d;
    forall k | i < k < |s| ensures s[k] != '@' {
      assert s[k] == d[k - i - 1];
    }
    PlainSlice(s, 0, i);
    PlainSlice(s, i + 1, j);
    PlainSlice(s, j + 1, |s|);
    assert s[..i] == s[0..i] && s[j + 1..] == s[j + 1..|s|];
    assert SplitsAsEmail(s, i, j);
  }

  /** The executable check accepts exactly what the regex accepts. */
  lemma ValidIffRegex(s: string)
    ensures IsValidEmail(s) <==> MatchesEmailRegex(s)
  {
    if IsValidEmail(s) {
      ValidHasShape(s);
    }
    if MatchesEmailRegex(s) {
      var i, j :| SplitsAsEmail(s, i, j);
      ShapeIsValid(s, i, j);
    }
  }

  lemma AcceptsMinimal()
    ensures IsValidEmail("a@b.c")
  {
    ShapeIsValid("a@b.c", 1, 3);
  }

  lemma RefusesTrailingDot()
    ensures !IsValidEmail("a@b.")
  {
    assert BeforeFirst("a@b.", '@') == "a";
  }

  lemma RefusesLeadingDot()
    ensures !IsValidEmail("a@.c")
  {
    assert BeforeFirst("a@.c", '@') == "a";
  }

  lemma RefusesEmptyLocal()
    ensures !IsValidEmail("@b.c")
  {
    assert BeforeFirst("@b.c", '@') == "";
  }

  lemma RefusesTwoAts()
    ensures !IsValidEmail("a@b@c.d")
  {
    var s := "a@b@c.d";
    assert s == "a@" + "b@c.d";
    assert multiset(s)['@'] >= 2;
  }

  /**
   * Sample addresses: a minimal one is accepted; a domain ending or starting
   * with its only '.', an empty local part and a second '@' are refused.
   */
  lemma EmailExamples()
    ensures IsValidEmail("a@b.c")
    ensures !IsValidEmail("a@b.")
    ensures !IsValidEmail("a@.c")
    ensures !IsValidEmail("@b.c")
    ensures !IsValidEmail("a@b@c.d")
  {
    AcceptsMinimal();
    RefusesTrailingDot();
    RefusesLeadingDot();
    RefusesEmptyLocal();
    RefusesTwoAts();
  }
}
