/**
 The page script's e-mail check, the regular expression
 `^[^\s@]+@[^\s@]+\.[^\s@]+$`, written out by hand: an executable test that
 splits at the first `@`, and the pattern's own shape as a reference.
 */
module Email {
  import opened Text

  /** A character of the class `[^\s@]`. */
  predicate IsPlain(c: char) {
    !IsWhitespace(c) && c != '@'
  }

  predicate AllPlain(s: string) {
    forall k | 0 <= k < |s| :: IsPlain(s[k])
  }

  /** The position of the first `c` in `s`, or `|s|` when there is none. */
  function IndexOf(s: string, c: char): (i: nat)
    ensures i <= |s|
    ensures i < |s| ==> s[i] == c
    ensures forall k | 0 <= k < i :: s[k] != c
  {
    if s == [] then 0
    else if s[0] == c then 0
    else 1 + IndexOf(s[1..], c)
  }

  /** `isValidEmail`: a non-empty plain local part, the first `@`, and a plain
      domain with a dot that has at least one character on each side. */
  predicate IsValidEmail(s: string) {
    var at := IndexOf(s, '@');
    && 0 < at < |s|
    && AllPlain(s[..at])
    && AllPlain(s[at + 1..])
    && exists j | at + 2 <= j < |s| - 1 :: s[j] == '.'
  }

  /** The pattern matches with `@` at `i` and the separating dot at `j`:
      `s[..i]`, `s[i+1..j]` and `s[j+1..]` are the three `[^\s@]+` runs. */
  ghost predicate SplitsAt(s: string, i: int, j: int) {
    && 0 < i && i + 1 < j && j + 1 < |s|
    && s[i] == '@' && s[j] == '.'
    && AllPlain(s[..i]) && AllPlain(s[i + 1..j]) && AllPlain(s[j + 1..])
  }

  /** The regular expression's language. */
  ghost predicate MatchesPattern(s: string) {
    exists i, j :: SplitsAt(s, i, j)
  }

  /** The executable check accepts exactly the strings the pattern matches. */
  lemma IsValidEmailIff(s: string)
    ensures IsValidEmail(s) <==> MatchesPattern(s)
  {
    if IsValidEmail(s) {
      var at := IndexOf(s, '@');
      var j :| at + 2 <= j < |s| - 1 && s[j] == '.';
      var domain, b, c := s[at + 1..], s[at + 1..j], s[j + 1..];
      forall k | 0 <= k < |b| ensures IsPlain(b[k]) {
        assert b[k] == domain[k];
      }
      forall k | 0 <= k < |c| ensures IsPlain(c[k]) {
        assert c[k] == domain[k + j - at];
      }
      assert SplitsAt(s, at, j);
    }
    if MatchesPattern(s) {
      var i, j :| SplitsAt(s, i, j);
      var at := IndexOf(s, '@');
      assert at == i;
      var domain, b, c := s[i + 1..], s[i + 1..j], s[j + 1..];
      forall k | 0 <= k < |domain| ensures IsPlain(domain[k]) {
        if k < j - i - 1 {
          assert domain[k] == b[k];
        } else if k > j - i - 1 {
          assert domain[k] == c[k - (j - i)];
        }
      }
    }
  }

  /** An accepted address has exactly one `@` and no whitespace. */
  lemma AcceptedShape(s: string)
    requires IsValidEmail(s)
    ensures multiset(s)['@'] == 1
    ensures forall k | 0 <= k < |s| :: !IsWhitespace(s[k])
  {
    var at := IndexOf(s, '@');
    assert s == s[..at] + [s[at]] + s[at + 1..];
    assert '@' !in multiset(s[..at]);
    assert '@' !in multiset(s[at + 1..]);
    assert multiset(s) == multiset(s[..at]) + multiset{s[at]} + multiset(s[at + 1..]);
    forall k | 0 <= k < |s| ensures !IsWhitespace(s[k]) {
      if k < at {
        assert s[k] == s[..at][k];
      } else if k > at {
        assert s[k] == s[at + 1..][k - at - 1];
      }
    }
  }

  /** The empty string is not an address. */
  lemma EmptyRejected()
    ensures !IsValidEmail("")
  {
  }
}
