/**
 * The free-text search of the employee and salary lists: a search that is
 * not blank keeps the people whose first name, last name or e-mail
 * contains it, ignoring letter case.
 */
module SearchFilter {
  import opened JsText

  /** `search.trim() !== ""`. */
  predicate SearchActive(search: string) {
    !IsBlank(search)
  }

  lemma SearchActiveIffTrimmed(search: string)
    ensures SearchActive(search) <==> Trim(search) != ""
  {
    BlankIffTrimsToEmpty(search);
  }

  /** The lowered, untrimmed search occurs in one of the lowered fields. */
  predicate MatchesSearch(firstName: string, lastName: string, email: string, search: string) {
    var needle := Lower(search);
    Includes(Lower(firstName), needle) || Includes(Lower(lastName), needle) || Includes(Lower(email), needle)
  }

  /** Lowering twice is lowering once. */
  lemma LowerIdempotent(s: string)
    ensures Lower(Lower(s)) == Lower(s)
  {
    assert forall i | 0 <= i < |s| :: LowerChar(LowerChar(s[i])) == LowerChar(s[i]);
  }

  /** The search ignores case in the search text and in the fields alike:
      lowering any of them first gives the same verdict. */
  lemma SearchIgnoresCase(firstName: string, lastName: string, email: string, search: string)
    ensures MatchesSearch(firstName, lastName, email, search) == MatchesSearch(firstName, lastName, email, Lower(search))
    ensures MatchesSearch(firstName, lastName, email, search) == MatchesSearch(Lower(firstName), Lower(lastName), Lower(email), search)
  {
    LowerIdempotent(search);
    LowerIdempotent(firstName);
    LowerIdempotent(lastName);
    LowerIdempotent(email);
  }

  /** A needle holding a character the haystack lacks is not included. */
  lemma {:induction false} MissingCharMisses(hay: string, needle: string, c: char)
    requires c in needle && c !in hay
    ensures !Includes(hay, needle)
    decreases |hay|
  {
    if hay != [] {
      MissingCharMisses(hay[1..], needle, c);
    }
  }

  lemma LowerKeepsSpaces(s: string)
    ensures ' ' in Lower(s) <==> ' ' in s
  {
    if ' ' in s {
      var k :| 0 <= k < |s| && s[k] == ' ';
      assert Lower(s)[k] == ' ';
    }
    if ' ' in Lower(s) {
      var k :| 0 <= k < |s| && Lower(s)[k] == ' ';
      assert s[k] == ' ';
    }
  }

  /** The search text is not trimmed before matching: an active search
      with a space in it (such as a leading one) finds nobody whose names
      and e-mail have no space. */
  lemma PaddedSearchMisses(firstName: string, lastName: string, email: string, search: string)
    requires ' ' in search
    requires ' ' !in firstName && ' ' !in lastName && ' ' !in email
    ensures !MatchesSearch(firstName, lastName, email, search)
  {
    LowerKeepsSpaces(search);
    LowerKeepsSpaces(firstName);
    LowerKeepsSpaces(lastName);
    LowerKeepsSpaces(email);
    MissingCharMisses(Lower(firstName), Lower(search), ' ');
    MissingCharMisses(Lower(lastName), Lower(search), ' ');
    MissingCharMisses(Lower(email), Lower(search), ' ');
  }
}
