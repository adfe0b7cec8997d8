/** The client's e-mail check: one test against the pattern
    `^[^\s@]+@[^\s@]+\.[^\s@]+$`, whose answer the function then negates. */
module EmailCheck {
  import opened Common

  /** A character the class `[^\s@]` accepts. */
  predicate Plain(c: char) { !IsJsWhitespace(c) && c != '@' }

  /** `[^\s@]+`: one or more such characters. */
  predicate PlainRun(s: string) {
    |s| >= 1 && forall k :: 0 <= k < |s| ==> Plain(s[k])
  }

  /** The pattern, read literally: three runs separated by the '@' at `at` and the '.'
      at `dot`. */
  predicate MatchesAt(s: string, at: int, dot: int) {
    && 0 <= at < dot < |s|
    && s[at] == '@' && s[dot] == '.'
    && PlainRun(s[..at]) && PlainRun(s[at + 1..dot]) && PlainRun(s[dot + 1..])
  }

  ghost predicate PatternMatches(s: string) {
    exists at, dot :: MatchesAt(s, at, dot)
  }

  // ---------------------------------------------------------------------------
  // A direct reading of the pattern
  // ---------------------------------------------------------------------------

  /** The position of the first `c` in `s`. */
  function IndexOf(s: string, c: char): (r: Option<nat>)
    ensures r.Some? ==> r.value < |s| && s[r.value] == c
    ensures r.Some? ==> forall k :: 0 <= k < r.value ==> s[k] != c
    ensures r.None? ==> forall k :: 0 <= k < |s| ==> s[k] != c
  {
    if s == [] then None
    else if s[0] == c then Some(0)
    else
      var rest := IndexOf(s[1..], c);
      if rest.None? then None
      else Some(rest.value + 1)
  }

  predicate AllPlain(s: string) {
    forall k :: 0 <= k < |s| ==> Plain(s[k])
  }

  /** The text after the '@': plain characters with a '.' that is neither the first nor
      the last of them. */
  predicate DomainOk(r: string) {
    AllPlain(r) && |r| >= 3 && '.' in r[1..|r| - 1]
  }

  /** A scan that decides the pattern: a non-empty plain local part up to the first '@',
      then a domain with an inner dot. */
  function Matches(s: string): (b: bool) {
    var at := IndexOf(s, '@');
    at.Some? && at.value >= 1 && AllPlain(s[..at.value]) && DomainOk(s[at.value + 1..])
  }

  /** The scan and the pattern agree on every string. */
  lemma MatchesIsPattern(s: string)
    ensures Matches(s) <==> PatternMatches(s)
  {
    if Matches(s) {
      MatchesHasPattern(s);
    }
    if PatternMatches(s) {
      PatternIsMatched(s);
    }
  }

  lemma MatchesHasPattern(s: string)
    requires Matches(s)
    ensures PatternMatches(s)
  {
    var at := IndexOf(s, '@').value;
    var r := s[at + 1..];
    var d :| 0 <= d < |r[1..|r| - 1]| && r[1..|r| - 1][d] == '.';
    var dot := at + 2 + d;
    assert s[dot] == '.';
    assert s[at + 1..dot] == r[..d + 1];
    assert s[dot + 1..] == r[d + 2..];
    assert MatchesAt(s, at, dot);
  }

  lemma PatternIsMatched(s: string)
    requires PatternMatches(s)
    ensures Matches(s)
  {
    var at, dot :| MatchesAt(s, at, dot);
    forall k | 0 <= k < at ensures s[k] != '@' {
      assert s[..at][k] == s[k];
    }
    var found := IndexOf(s, '@');
    assert found.Some?;
    assert found.value == at;
    DomainOfMatch(s, at, dot);
  }

  /** The text after the '@' of a match is a well-formed domain. */
  lemma DomainOfMatch(s: string, at: int, dot: int)
    requires MatchesAt(s, at, dot)
    ensures DomainOk(s[at + 1..])
  {
    var r := s[at + 1..];
    forall k | 0 <= k < |r| ensures Plain(r[k]) {
      if k < dot - at - 1 {
        assert r[k] == s[at + 1..dot][k];
      } else if k > dot - at - 1 {
        assert r[k] == s[dot + 1..][k - (dot - at)];
      } else {
        assert r[k] == '.';
      }
    }
    assert r[1..|r| - 1][dot - at - 2] == '.';
  }

  // ---------------------------------------------------------------------------
  // The check as written and as documented
  // ---------------------------------------------------------------------------

  /** `isValidEmailAddress` as written: the pattern test negated, so it answers true
      exactly for the strings that are not shaped like an address. */
  function IsValidEmailAddressAsWritten(email: string): (r: bool)
    ensures r <==> !PatternMatches(email)
  {
    MatchesIsPattern(email);
    !Matches(email)
  }

  /** `isValidEmailAddress` as its documentation describes it: true exactly for the
      strings shaped like an address. */
  function IsValidEmailAddress(email: string): (r: bool)
    ensures r <==> PatternMatches(email)
  {
    MatchesIsPattern(email);
    Matches(email)
  }

  /** Every character of a matching string other than the '@' and the '.' the match
      splits at is plain. */
  lemma MatchedCharsArePlain(email: string, at: int, dot: int, k: int)
    requires MatchesAt(email, at, dot)
    requires 0 <= k < |email| && k != at && k != dot
    ensures Plain(email[k])
  {
    if k < at {
      assert email[..at][k] == email[k];
    } else if k < dot {
      assert email[at + 1..dot][k - at - 1] == email[k];
    } else {
      assert email[dot + 1..][k - dot - 1] == email[k];
    }
  }

  /** An address with white space anywhere, or without an '@', is rejected by the
      documented check and accepted by the written one. */
  lemma {:induction false} MalformedIsRejected(email: string)
    requires (exists k :: 0 <= k < |email| && IsJsWhitespace(email[k])) || '@' !in email
    ensures !IsValidEmailAddress(email) && IsValidEmailAddressAsWritten(email)
  {
    if PatternMatches(email) {
      var at, dot :| MatchesAt(email, at, dot);
      assert email[at] == '@';
      var k :| 0 <= k < |email| && IsJsWhitespace(email[k]);
      if k != at && k != dot {
        MatchedCharsArePlain(email, at, dot, k);
      }
    }
  }

  /** Two '@' characters are never accepted by the documented check. */
  lemma {:induction false} TwoAtsAreRejected(email: string, i: nat, j: nat)
    requires i < j < |email| && email[i] == '@' && email[j] == '@'
    ensures !IsValidEmailAddress(email) && IsValidEmailAddressAsWritten(email)
  {
    if PatternMatches(email) {
      var at, dot :| MatchesAt(email, at, dot);
      var other := if i == at then j else i;
      MatchedCharsArePlain(email, at, dot, other);
    }
  }

  /** "a@b.c" and "a@b.c.d" are addresses: the documented check accepts them, the written
      one answers false. */
  lemma {:induction false} ValidExamples()
    ensures IsValidEmailAddress("a@b.c") && !IsValidEmailAddressAsWritten("a@b.c")
    ensures IsValidEmailAddress("a@b.c.d") && !IsValidEmailAddressAsWritten("a@b.c.d")
  {
    assert MatchesAt("a@b.c", 1, 3);
    assert MatchesAt("a@b.c.d", 1, 3) by {
      assert "a@b.c.d"[4..] == "c.d";
    }
  }

  /** "not an address" has no '@': the written check calls it valid. */
  lemma {:induction false} InvalidExample()
    ensures IsValidEmailAddressAsWritten("plainaddress") && !IsValidEmailAddress("plainaddress")
  {
    assert "plainaddress"[0] != '@';
    MalformedIsRejected("plainaddress");
  }
}
