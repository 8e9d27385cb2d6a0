/**
 * The email shape test of the contact form, `/^[^\s@]+@[^\s@]+\.[^\s@]+$/`,
 * without a regular-expression engine.
 *
 * `MatchesEmailRegex` follows the structure of the pattern: three runs of
 * characters that are neither whitespace nor `@`, separated by one `@` and
 * one `.`. `IsValidEmail` is the character-level test the form applies, and
 * `EmailCheckMatchesRegex` proves that the two agree on every string.
 */
module EmailShape {
  import opened Text

  /** A character of the class `[^\s@]`. */
  predicate IsAtomChar(c: char)
  {
    !IsWs(c) && c != '@'
  }

  /** A string matched by `[^\s@]+`. */
  predicate IsAtom(t: string)
  {
    |t| > 0 && forall j | 0 <= j < |t| :: IsAtomChar(t[j])
  }

  /** The pattern matches `s` with its `@` at index `i` and its `.` at index `k`. */
  ghost predicate SplitsAt(s: string, i: int, k: int)
  {
    && 0 <= i < k < |s|
    && s[i] == '@' && s[k] == '.'
    && IsAtom(s[..i]) && IsAtom(s[i + 1..k]) && IsAtom(s[k + 1..])
  }

  /** `/^[^\s@]+@[^\s@]+\.[^\s@]+$/.test(s)` (the pattern is anchored at both ends). */
  ghost predicate MatchesEmailRegex(s: string)
  {
    exists i, k :: SplitsAt(s, i, k)
  }

  /** The number of occurrences of `c` in `s`. */
  function CountOf(s: string, c: char): nat
  {
    if s == [] then 0 else (if s[0] == c then 1 else 0) + CountOf(s[1..], c)
  }

  /** The index of the first `c` in `s`, or `|s|` when there is none. */
  function IndexOf(s: string, c: char): nat
  {
    if s == [] then 0
    else if s[0] == c then 0
    else 1 + IndexOf(s[1..], c)
  }

  /** IndexOf finds the first occurrence, and `|s|` means there is none. */
  lemma {:induction false} IndexOfSpec(s: string, c: char)
    ensures IndexOf(s, c) <= |s|
    ensures IndexOf(s, c) < |s| ==> s[IndexOf(s, c)] == c
    ensures forall j | 0 <= j < IndexOf(s, c) :: s[j] != c
  {
    if s != [] && s[0] != c {
      IndexOfSpec(s[1..], c);
      forall j | 0 < j < IndexOf(s, c) ensures s[j] != c {
        assert s[j] == s[1..][j - 1];
      }
    }
  }

  /** `s` holds no whitespace character. */
  predicate NoWs(s: string)
  {
    forall j | 0 <= j < |s| :: !IsWs(s[j])
  }

  /** `d` has a `.` with at least one character before it and one after it. */
  predicate HasInnerDot(d: string)
  {
    |d| >= 3 && '.' in d[1..|d| - 1]
  }

  /**
   * The accepted email shape: no whitespace anywhere, exactly one `@`, a
   * non-empty part before it, and a part after it holding a `.` that has a
   * character on each side.
   */
  predicate IsValidEmail(s: string)
  {
    && NoWs(s)
    && CountOf(s, '@') == 1
    && var i := IndexOf(s, '@');
       0 < i < |s| && HasInnerDot(s[i + 1..])
  }

  /** A string without `c` counts no `c`, and conversely. */
  lemma {:induction false} CountZero(s: string, c: char)
    ensures CountOf(s, c) == 0 <==> forall j | 0 <= j < |s| :: s[j] != c
  {
    if s != [] {
      CountZero(s[1..], c);
      if CountOf(s, c) == 0 {
        forall j | 0 <= j < |s| ensures s[j] != c {
          if j > 0 { assert s[j] == s[1..][j - 1]; }
        }
      }
    }
  }

  /** When `s[i]` is `c`, the count of `c` is one exactly when no other index holds `c`. */
  lemma {:induction false} CountOne(s: string, c: char, i: nat)
    requires i < |s| && s[i] == c
    ensures CountOf(s, c) == 1 <==> forall j | 0 <= j < |s| && j != i :: s[j] != c
  {
    if i == 0 {
      CountZero(s[1..], c);
      if CountOf(s, c) == 1 {
        forall j | 0 < j < |s| ensures s[j] != c {
          assert s[j] == s[1..][j - 1];
        }
      }
    } else {
      CountOne(s[1..], c, i - 1);
      if s[0] == c {
        CountZero(s[1..], c);
        assert s[1..][i - 1] == c;
      } else if CountOf(s, c) == 1 {
        forall j | 0 < j < |s| && j != i ensures s[j] != c {
          assert s[j] == s[1..][j - 1];
        }
      }
    }
  }

  /** The character test agrees with the regular expression on every string. */
  lemma EmailCheckMatchesRegex(s: string)
    ensures IsValidEmail(s) <==> MatchesEmailRegex(s)
  {
    if MatchesEmailRegex(s) {
      var i, k :| SplitsAt(s, i, k);
      RegexMatchIsValid(s, i, k);
    }
    if IsValidEmail(s) {
      ValidIsRegexMatch(s);
    }
  }

  /** A match of the pattern passes the character test. */
  lemma RegexMatchIsValid(s: string, i: int, k: int)
    requires SplitsAt(s, i, k)
    ensures IsValidEmail(s)
  {
    var local, host, tld := s[..i], s[i + 1..k], s[k + 1..];
    assert s == local + [s[i]] + host + [s[k]] + tld;
    forall j | 0 <= j < |s| ensures !IsWs(s[j]) && (j != i ==> s[j] != '@') {
      if j < i {
        assert s[j] == local[j];
      } else if i < j < k {
        assert s[j] == host[j - i - 1];
      } else if k < j {
        assert s[j] == tld[j - k - 1];
      }
    }
    IndexOfSpec(s, '@');
    assert IndexOf(s, '@') == i;
    CountOne(s, '@', i);
    var d := s[i + 1..];
    assert d[k - i - 1] == '.';
    assert d[1..|d| - 1][k - i - 2] == '.';
  }

  /** A string that passes the character test is matched by the pattern. */
  lemma ValidIsRegexMatch(s: string)
    requires IsValidEmail(s)
    ensures MatchesEmailRegex(s)
  {
    var i := IndexOf(s, '@');
    IndexOfSpec(s, '@');
    var d := s[i + 1..];
    var m :| 0 <= m < |d| - 2 && d[1..|d| - 1][m] == '.';
    var k := i + 2 + m;
    assert s[k] == d[m + 1];
    CountOne(s, '@', i);
    var local, host, tld := s[..i], s[i + 1..k], s[k + 1..];
    forall j | 0 <= j < |local| ensures IsAtomChar(local[j]) {
      assert local[j] == s[j];
    }
    forall j | 0 <= j < |host| ensures IsAtomChar(host[j]) {
      assert host[j] == s[i + 1 + j];
    }
    forall j | 0 <= j < |tld| ensures IsAtomChar(tld[j]) {
      assert tld[j] == s[k + 1 + j];
    }
    assert SplitsAt(s, i, k);
  }

  /** An email with whitespace at either end fails the test, however it looks once trimmed. */
  lemma PaddedEmailRejected(s: string)
    requires |s| > 0 && (IsWs(s[0]) || IsWs(s[|s| - 1]))
    ensures !MatchesEmailRegex(s)
  {
  }

  /** Without an `@` there is no match. */
  lemma NoAtNoMatch(s: string)
    requires '@' !in s
    ensures !MatchesEmailRegex(s)
  {
  }

  /** Three sample strings: an address, a string without `@`, and an address with a leading space. */
  lemma SampleAddresses()
    ensures MatchesEmailRegex("a@b.co")
    ensures !MatchesEmailRegex("not-an-email")
    ensures !MatchesEmailRegex(" a@b.co")
  {
    var s := "a@b.co";
    assert s[..1] == "a" && s[2..3] == "b" && s[4..] == "co";
    assert SplitsAt(s, 1, 3);
    assert '@' !in "not-an-email";
    NoAtNoMatch("not-an-email");
    PaddedEmailRejected(" a@b.co");
  }
}
