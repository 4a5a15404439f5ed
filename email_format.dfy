/**
 * The approver-address check of the purchase service: a test of the
 * string against the pattern  ^[^\s@]+@[^\s@]+\.[^\s@]+$ .
 */
module EmailFormat {
  import opened Wrappers

  /** The characters of JavaScript's `\s` class. */
  predicate IsWhitespace(c: char) {
    var n := c as int;
    (0x09 <= n <= 0x0D) || n == 0x20 || n == 0xA0 || n == 0x1680
    || (0x2000 <= n <= 0x200A) || n == 0x2028 || n == 0x2029
    || n == 0x202F || n == 0x205F || n == 0x3000 || n == 0xFEFF
  }

  /** The class `[^\s@]`. */
  predicate IsAddressChar(c: char) {
    !IsWhitespace(c) && c != '@'
  }

  predicate AllAddressChars(s: string) {
    forall k :: 0 <= k < |s| ==> IsAddressChar(s[k])
  }

  predicate NoWhitespace(s: string) {
    forall k :: 0 <= k < |s| ==> !IsWhitespace(s[k])
  }

  /**
   * The pattern read as a split: `s[..i]`, the '@' at `i`, `s[i+1..j]`,
   * the '.' at `j` and `s[j+1..]`, each of the three pieces a non-empty
   * run of `[^\s@]`.
   */
  ghost predicate MatchesAt(s: string, i: int, j: int) {
    && 0 < i && i + 1 < j && j + 1 < |s|
    && s[i] == '@' && s[j] == '.'
    && AllAddressChars(s[..i]) && AllAddressChars(s[i + 1..j]) && AllAddressChars(s[j + 1..])
  }

  /** Some split of `s` matches the whole pattern. */
  ghost predicate MatchesEmailPattern(s: string) {
    exists i, j :: MatchesAt(s, i, j)
  }

  /** The first position of `c` in `s`. */
  function IndexOf(s: string, c: char): (k: Option<nat>)
    ensures k.Some? ==> k.value < |s| && s[k.value] == c && forall j :: 0 <= j < k.value ==> s[j] != c
    ensures k.None? ==> forall j :: 0 <= j < |s| ==> s[j] != c
  {
    if s == [] then None
    else if s[0] == c then Some(0)
    else
      match IndexOf(s[1..], c)
      case None => None
      case Some(k) => Some(k + 1)
  }

  /** A '.' with at least one character on each side. */
  predicate HasInnerDot(host: string) {
    exists j :: 0 < j < |host| - 1 && host[j] == '.'
  }

  /**
   * `validateEmail`: split at the first '@'; the part before it must be a
   * non-empty run of `[^\s@]`, and the part after it a run of `[^\s@]`
   * holding an inner '.'.
   */
  function ValidateEmail(email: string): bool {
    match IndexOf(email, '@')
    case None => false
    case Some(i) =>
      && 0 < i
      && AllAddressChars(email[..i])
      && AllAddressChars(email[i + 1..])
      && HasInnerDot(email[i + 1..])
  }

  /** The number of times `c` occurs in `s`. */
  function Occurrences(s: string, c: char): nat {
    if s == [] then 0 else (if s[0] == c then 1 else 0) + Occurrences(s[1..], c)
  }

  lemma {:induction false} OccurrencesAppend(a: string, b: string, c: char)
    ensures Occurrences(a + b, c) == Occurrences(a, c) + Occurrences(b, c)
  {
    if a == [] {
      assert a + b == b;
    } else {
      assert (a + b)[1..] == a[1..] + b;
      OccurrencesAppend(a[1..], b, c);
    }
  }

  lemma {:induction false} OccurrencesOfAddress(s: string)
    requires AllAddressChars(s)
    ensures Occurrences(s, '@') == 0
  {
    if s != [] {
      OccurrencesOfAddress(s[1..]);
    }
  }

  lemma OccurrencesPositive(s: string, c: char, k: int)
    requires 0 <= k < |s| && s[k] == c
    ensures Occurrences(s, c) == Occurrences(s[..k], c) + 1 + Occurrences(s[k + 1..], c)
  {
    assert s == s[..k] + s[k..];
    OccurrencesAppend(s[..k], s[k..], c);
    assert s[k..][1..] == s[k + 1..];
  }

  /** When `c` occurs once, its position is unique. */
  lemma OccurrencesOnce(s: string, c: char, i: int, k: int)
    requires Occurrences(s, c) == 1
    requires 0 <= i < |s| && 0 <= k < |s| && s[i] == c && s[k] == c
    ensures i == k
  {
    if i < k {
      OccurrencesPositive(s, c, k);
      assert s[..k][i] == c;
      OccurrencesPositive(s[..k], c, i);
    } else if k < i {
      OccurrencesPositive(s, c, i);
      assert s[..i][k] == c;
      OccurrencesPositive(s[..i], c, k);
    }
  }

  /** The host part of a match is itself a run of `[^\s@]`. */
  lemma HostOfMatch(s: string, i: int, j: int)
    requires MatchesAt(s, i, j)
    ensures AllAddressChars(s[i + 1..]) && HasInnerDot(s[i + 1..])
  {
  }

  /** The check accepts exactly the strings the pattern matches. */
  lemma ValidateEmailIsPattern(email: string)
    ensures ValidateEmail(email) <==> MatchesEmailPattern(email)
  {
    if ValidateEmail(email) {
      var i := IndexOf(email, '@').value;
      var host := email[i + 1..];
      var j :| 0 < j < |host| - 1 && host[j] == '.';
      assert email[i + 1..i + 1 + j] == host[..j];
      assert email[i + 2 + j..] == host[j + 1..];
      assert MatchesAt(email, i, i + 1 + j);
    }
    if MatchesEmailPattern(email) {
      var i, j :| MatchesAt(email, i, j);
      forall k | 0 <= k < i
        ensures email[k] != '@'
      {
        assert email[..i][k] == email[k];
      }
      HostOfMatch(email, i, j);
    }
  }

  /**
   * What an accepted address looks like: no whitespace anywhere, exactly one
   * '@', something before it, and after it a '.' with something on each side.
   */
  predicate EmailShape(s: string) {
    && NoWhitespace(s)
    && Occurrences(s, '@') == 1
    && exists i, j :: 0 < i && i + 1 < j < |s| - 1 && s[i] == '@' && s[j] == '.'
  }

  lemma ShapeOfMatch(s: string, i: int, j: int)
    requires MatchesAt(s, i, j)
    ensures EmailShape(s)
  {
    HostOfMatch(s, i, j);
    forall k | 0 <= k < |s|
      ensures !IsWhitespace(s[k])
    {
      if k < i {
        assert s[..i][k] == s[k];
      } else if k > i {
        assert s[i + 1..][k - i - 1] == s[k];
      }
    }
    OccurrencesPositive(s, '@', i);
    OccurrencesOfAddress(s[..i]);
    OccurrencesOfAddress(s[i + 1..]);
  }

  lemma MatchOfShape(s: string) returns (i: int, j: int)
    requires EmailShape(s)
    ensures MatchesAt(s, i, j)
  {
    i, j :| 0 < i && i + 1 < j < |s| - 1 && s[i] == '@' && s[j] == '.';
    forall k | 0 <= k < |s| && k != i
      ensures IsAddressChar(s[k])
    {
      if s[k] == '@' {
        OccurrencesOnce(s, '@', i, k);
      }
    }
    assert AllAddressChars(s[..i]) by {
      forall k | 0 <= k < i ensures IsAddressChar(s[..i][k]) { assert s[..i][k] == s[k]; }
    }
    var host, tld := s[i + 1..j], s[j + 1..];
    assert AllAddressChars(host) by {
      forall k | 0 <= k < |host| ensures IsAddressChar(host[k]) { assert host[k] == s[k + i + 1]; }
    }
    assert AllAddressChars(tld) by {
      forall k | 0 <= k < |tld| ensures IsAddressChar(tld[k]) { assert tld[k] == s[k + j + 1]; }
    }
  }

  /** The check accepts a string exactly when it has the shape above. */
  lemma EmailAcceptance(s: string)
    ensures ValidateEmail(s) <==> EmailShape(s)
  {
    ValidateEmailIsPattern(s);
    if MatchesEmailPattern(s) {
      var i, j :| MatchesAt(s, i, j);
      ShapeOfMatch(s, i, j);
    }
    if EmailShape(s) {
      var i, j := MatchOfShape(s);
    }
  }
}
