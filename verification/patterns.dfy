/**
 * Hand-written replacements for the regular expressions the forms test
 * values against. Each predicate matches exactly the strings its pattern
 * matches (JavaScript semantics, `^`/`$` anchored, no multiline flag).
 */
module Patterns {
  import opened JsText

  /** `/^\d{n}$/` and `/^[0-9]{n}$/`: exactly `n` ASCII digits. */
  predicate ExactDigits(s: string, n: nat) {
    |s| == n && AllDigits(s)
  }

  /** `/^\d{lo,hi}$/`: between `lo` and `hi` ASCII digits. */
  predicate DigitsBetween(s: string, lo: nat, hi: nat) {
    lo <= |s| <= hi && AllDigits(s)
  }

  /** `/^\d{4}$/`: a four-digit year. */
  predicate FourDigitYear(s: string) {
    ExactDigits(s, 4)
  }

  /** `/^\S+@\S+\.\S+$/`: no white space anywhere, an `@` with something
      before it, then a `.` with something between it and the `@` and
      something after it. */
  predicate LooseEmail(s: string) {
    NoSpace(s) &&
    exists i, j | 0 < i < |s| && 0 < j < |s| ::
      i + 1 < j && j + 1 < |s| && s[i] == '@' && s[j] == '.'
  }

  /** Every string the loose pattern generates is accepted. */
  lemma LooseEmailAccepts(a: string, b: string, c: string)
    requires a != [] && b != [] && c != []
    requires NoSpace(a) && NoSpace(b) && NoSpace(c)
    ensures LooseEmail(a + "@" + b + "." + c)
  {
    var s := a + "@" + b + "." + c;
    var i, j := |a|, |a| + 1 + |b|;
    assert s[i] == '@' && s[j] == '.';
    forall k | 0 <= k < |s| ensures !IsSpace(s[k]) {
      if k < i {
        assert s[k] == a[k];
      } else if i < k < j {
        assert s[k] == b[k - i - 1];
      } else if j < k {
        assert s[k] == c[k - j - 1];
      }
    }
  }

  /** `[A-Z0-9._%+-]` under the `i` flag. */
  predicate IsLocalChar(c: char) {
    IsAsciiLetter(c) || IsAsciiDigit(c) || c == '.' || c == '_' || c == '%' || c == '+' || c == '-'
  }

  /** `[A-Z0-9.-]` under the `i` flag. */
  predicate IsDomainChar(c: char) {
    IsAsciiLetter(c) || IsAsciiDigit(c) || c == '.' || c == '-'
  }

  predicate AllLocal(s: string) {
    forall k | 0 <= k < |s| :: IsLocalChar(s[k])
  }

  predicate AllDomain(s: string) {
    forall k | 0 <= k < |s| :: IsDomainChar(s[k])
  }

  predicate AllLetters(s: string) {
    forall k | 0 <= k < |s| :: IsAsciiLetter(s[k])
  }

  /** The pattern `/^[A-Z0-9._%+-]+@[A-Z0-9.-]+\.[A-Z]{2,}$/i` read as a
      decomposition: the `@` at `i` and the `.` before the top-level domain
      at `k`. */
  ghost predicate StrictSplit(s: string, i: int, k: int) {
    0 < i && i + 1 < k && k + 2 < |s| &&
    s[i] == '@' && s[k] == '.' &&
    AllLocal(s[..i]) && AllDomain(s[i + 1..k]) && AllLetters(s[k + 1..])
  }

  ghost predicate StrictEmailSpec(s: string) {
    exists i, k :: StrictSplit(s, i, k)
  }

  /** Index of the first `c` in `s`, or `|s|` when there is none. */
  function FirstIndex(s: string, c: char): (r: nat)
    ensures r <= |s|
    ensures r < |s| ==> s[r] == c
    ensures forall k | 0 <= k < r :: s[k] != c
  {
    if s == [] || s[0] == c then 0 else 1 + FirstIndex(s[1..], c)
  }

  /** Index of the last `c` in `s`, or `-1` when there is none. */
  function LastIndex(s: string, c: char): (r: int)
    ensures -1 <= r < |s|
    ensures 0 <= r ==> s[r] == c
    ensures forall k | r < k < |s| :: s[k] != c
  {
    if s == [] then -1
    else if s[|s| - 1] == c then |s| - 1
    else LastIndex(s[..|s| - 1], c)
  }

  /** The strict pattern as a scan: the first `@` and the last `.` are the
      only candidates for the two separators. */
  predicate StrictEmail(s: string) {
    var i := FirstIndex(s, '@');
    var k := LastIndex(s, '.');
    0 < i && i + 1 < k && k + 2 < |s| &&
    AllLocal(s[..i]) && AllDomain(s[i + 1..k]) && AllLetters(s[k + 1..])
  }

  /** The scan accepts exactly the strings the pattern matches. */
  lemma StrictEmailCorrect(s: string)
    ensures StrictEmail(s) <==> StrictEmailSpec(s)
  {
    var i := FirstIndex(s, '@');
    var k := LastIndex(s, '.');
    if StrictEmail(s) {
      assert StrictSplit(s, i, k);
    }
    if StrictEmailSpec(s) {
      var i', k' :| StrictSplit(s, i', k');
      assert i == i' by {
        forall m | 0 <= m < i' ensures s[m] != '@' {
          assert s[..i'][m] == s[m];
        }
      }
      assert k == k' by {
        forall m | k' < m < |s| ensures s[m] != '.' {
          assert s[k' + 1..][m - k' - 1] == s[m];
        }
      }
    }
  }

  /** Every address the strict pattern accepts is also accepted by the
      loose one (the converse fails: see LooseNotStrict). */
  lemma StrictImpliesLoose(s: string)
    requires StrictEmail(s)
    ensures LooseEmail(s)
  {
    var i := FirstIndex(s, '@');
    var k := LastIndex(s, '.');
    forall m | 0 <= m < |s| ensures !IsSpace(s[m]) {
      if m < i {
        assert s[..i][m] == s[m];
      } else if i < m < k {
        assert s[i + 1..k][m - i - 1] == s[m];
      } else if k < m {
        assert s[k + 1..][m - k - 1] == s[m];
      }
    }
    assert i + 1 < k && k + 1 < |s| && s[i] == '@' && s[k] == '.';
  }

  /** A one-letter top-level domain passes the loose pattern only. */
  lemma LooseNotStrict()
    ensures LooseEmail("a@b.c") && !StrictEmail("a@b.c")
  {
    assert "a@b.c"[1] == '@' && "a@b.c"[3] == '.';
  }

  /** `/[!@#$%^&*]/`: at least one of the eight special characters. */
  predicate IsSpecial(c: char) {
    c == '!' || c == '@' || c == '#' || c == '$' || c == '%' || c == '^' || c == '&' || c == '*'
  }

  predicate HasSpecial(s: string) {
    exists k | 0 <= k < |s| :: IsSpecial(s[k])
  }
}
