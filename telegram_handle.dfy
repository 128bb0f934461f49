/**
 * The Telegram-handle check of the contact form: the input is trimmed and
 * then tested against the pattern `^@?[a-zA-Z0-9_]{5,32}$`.
 */
module TelegramHandle {

  // ---------------------------------------------------------------------------
  // Trimming
  // ---------------------------------------------------------------------------

  /** The characters `String.prototype.trim` strips, restricted to ASCII: tab, LF, VT, FF, CR, space. */
  predicate IsTrimSpace(c: char) {
    c == ' ' || c == '\t' || c == '\n' || c == '\U{000B}' || c == '\U{000C}' || c == '\r'
  }

  predicate AllTrimSpace(s: string) {
    forall i :: 0 <= i < |s| ==> IsTrimSpace(s[i])
  }

  /** Neither end of `s` is a trim character. */
  predicate IsTrimmed(s: string) {
    s == [] || (!IsTrimSpace(s[0]) && !IsTrimSpace(s[|s| - 1]))
  }

  /** `s` without its leading trim characters. */
  function TrimStart(s: string): (r: string)
    ensures |r| <= |s|
    ensures r == [] || !IsTrimSpace(r[0])
    decreases |s|
  {
    if s != [] && IsTrimSpace(s[0]) then TrimStart(s[1..]) else s
  }

  /** `s` without its trailing trim characters. */
  function TrimEnd(s: string): (r: string)
    ensures |r| <= |s|
    ensures r == [] || (r[0] == s[0] && !IsTrimSpace(r[|r| - 1]))
    decreases |s|
  {
    if s != [] && IsTrimSpace(s[|s| - 1]) then TrimEnd(s[..|s| - 1]) else s
  }

  /** `String.prototype.trim` over ASCII whitespace. */
  function Trim(s: string): (r: string)
    ensures IsTrimmed(r) && |r| <= |s|
  {
    TrimEnd(TrimStart(s))
  }

  lemma {:induction false} TrimStartOfPadded(lead: string, t: string)
    requires AllTrimSpace(lead)
    requires t == [] || !IsTrimSpace(t[0])
    ensures TrimStart(lead + t) == t
    decreases |lead|
  {
    if lead == [] {
      assert lead + t == t;
    } else {
      assert (lead + t)[1..] == lead[1..] + t;
      TrimStartOfPadded(lead[1..], t);
    }
  }

  lemma {:induction false} TrimEndOfPadded(t: string, trail: string)
    requires AllTrimSpace(trail)
    requires t == [] || !IsTrimSpace(t[|t| - 1])
    ensures TrimEnd(t + trail) == t
    decreases |trail|
  {
    if trail == [] {
      assert t + trail == t;
    } else {
      var u := t + trail;
      assert u[..|u| - 1] == t + trail[..|trail| - 1];
      TrimEndOfPadded(t, trail[..|trail| - 1]);
    }
  }

  /**
   * Trim removes exactly the whitespace around a trimmed core: any string made of
   * whitespace, a core that neither starts nor ends with whitespace, and
   * whitespace, trims to that core. Together with Trim's own contract this
   * characterises Trim completely.
   */
  lemma TrimOfPadded(lead: string, t: string, trail: string)
    requires AllTrimSpace(lead) && AllTrimSpace(trail) && IsTrimmed(t)
    ensures Trim(lead + t + trail) == t
  {
    if t == [] {
      assert lead + t + trail == lead + trail;
      TrimStartOfPadded(lead + trail, []);
      assert (lead + trail) + [] == lead + trail;
      assert TrimStart(lead + trail) == [];
    } else {
      assert lead + t + trail == lead + (t + trail);
      TrimStartOfPadded(lead, t + trail);
      TrimEndOfPadded(t, trail);
    }
  }

  lemma AllTrimSpaceConcat(a: string, b: string)
    requires AllTrimSpace(a) && AllTrimSpace(b)
    ensures AllTrimSpace(a + b)
  {
  }

  /** What TrimStart removes is a run of whitespace in front of what it keeps. */
  lemma {:induction false} TrimStartSplits(s: string) returns (lead: string)
    ensures s == lead + TrimStart(s) && AllTrimSpace(lead)
    decreases |s|
  {
    if s != [] && IsTrimSpace(s[0]) {
      var rest := TrimStartSplits(s[1..]);
      lead := [s[0]] + rest;
      assert s == [s[0]] + s[1..];
    } else {
      lead := [];
    }
  }

  /** What TrimEnd removes is a run of whitespace behind what it keeps. */
  lemma {:induction false} TrimEndSplits(s: string) returns (trail: string)
    ensures s == TrimEnd(s) + trail && AllTrimSpace(trail)
    decreases |s|
  {
    if s != [] && IsTrimSpace(s[|s| - 1]) {
      var rest := TrimEndSplits(s[..|s| - 1]);
      trail := rest + [s[|s| - 1]];
      assert s == s[..|s| - 1] + [s[|s| - 1]];
    } else {
      trail := [];
    }
  }

  /** Every string is whitespace, then its trimmed value, then whitespace. */
  lemma TrimSplits(s: string) returns (lead: string, trail: string)
    ensures s == lead + Trim(s) + trail
    ensures AllTrimSpace(lead) && AllTrimSpace(trail)
  {
    lead := TrimStartSplits(s);
    trail := TrimEndSplits(TrimStart(s));
  }

  lemma Regroup(a: string, b: string, c: string, d: string, e: string)
    ensures a + (b + c + d) + e == (a + b) + c + (d + e)
  {
  }

  /** Extra whitespace around a value does not change its trimmed value. */
  lemma TrimIgnoresPadding(lead: string, s: string, trail: string)
    requires AllTrimSpace(lead) && AllTrimSpace(trail)
    ensures Trim(lead + s + trail) == Trim(s)
  {
    var p, q := TrimSplits(s);
    var t := Trim(s);
    Regroup(lead, p, t, q, trail);
    AllTrimSpaceConcat(lead, p);
    AllTrimSpaceConcat(q, trail);
    TrimOfPadded(lead + p, t, q + trail);
  }

  lemma TrimIdempotent(s: string)
    ensures Trim(Trim(s)) == Trim(s)
  {
    var t := Trim(s);
    TrimOfPadded([], t, []);
    assert [] + t + [] == t;
  }

  // ---------------------------------------------------------------------------
  // The pattern
  // ---------------------------------------------------------------------------

  /** `[a-zA-Z0-9_]`. */
  predicate IsHandleChar(c: char) {
    ('a' <= c <= 'z') || ('A' <= c <= 'Z') || ('0' <= c <= '9') || c == '_'
  }

  /** `[a-zA-Z0-9_]{5,32}` matching the whole of `s`. */
  predicate IsHandleBody(s: string) {
    5 <= |s| <= 32 && forall i :: 0 <= i < |s| ==> IsHandleChar(s[i])
  }

  /**
   * `^@?[a-zA-Z0-9_]{5,32}$` tested against `s`: the anchors make the match
   * span all of `s`, and `@?` either consumes a leading `@` or consumes nothing.
   */
  predicate MatchesHandlePattern(s: string) {
    IsHandleBody(s) || (|s| > 0 && s[0] == '@' && IsHandleBody(s[1..]))
  }

  /** The check at the submit handler: trimmed, non-empty and matching the pattern. */
  predicate IsValidHandle(value: string) {
    var t := Trim(value);
    t != [] && MatchesHandlePattern(t)
  }

  /**
   * No backtracking is ever needed: a leading `@` is always consumed by `@?`
   * (a body cannot start with `@`), and without one the body is the whole string.
   */
  lemma PatternIsDeterministic(s: string)
    ensures MatchesHandlePattern(s) <==>
      if |s| > 0 && s[0] == '@' then IsHandleBody(s[1..]) else IsHandleBody(s)
  {
    if |s| > 0 && s[0] == '@' {
      assert !IsHandleChar(s[0]);
    }
  }

  /** The `!telegramValue` test is subsumed by the pattern. */
  lemma PatternExcludesEmpty(s: string)
    requires MatchesHandlePattern(s)
    ensures s != [] && 5 <= |s| <= 33
  {
  }

  /** The characterisation of the whole check, with the `@` not counted in the length. */
  lemma ValidHandleCharacterised(value: string)
    ensures IsValidHandle(value) <==>
      var t := Trim(value);
      if |t| > 0 && t[0] == '@'
      then 5 <= |t| - 1 <= 32 && forall i :: 1 <= i < |t| ==> IsHandleChar(t[i])
      else 5 <= |t| <= 32 && forall i :: 0 <= i < |t| ==> IsHandleChar(t[i])
  {
    var t := Trim(value);
    PatternIsDeterministic(t);
    if |t| > 0 && t[0] == '@' {
      var b := t[1..];
      assert forall i :: 0 <= i < |b| ==> b[i] == t[i + 1];
      if forall i :: 1 <= i < |t| ==> IsHandleChar(t[i]) {
        assert forall i :: 0 <= i < |b| ==> IsHandleChar(b[i]);
      }
      if IsHandleBody(b) {
        forall i | 1 <= i < |t|
          ensures IsHandleChar(t[i])
        {
          assert t[i] == b[i - 1];
        }
      }
    }
  }

  /** A leading `@` does not count towards the 5 to 32 characters. */
  lemma AtSignIsOptional(body: string)
    requires |body| > 0 && body[0] != '@'
    ensures MatchesHandlePattern(['@'] + body) <==> MatchesHandlePattern(body)
  {
    var s := ['@'] + body;
    assert s[1..] == body;
    assert !IsHandleChar(s[0]);
  }

  /** Whitespace typed around a handle does not change the verdict. */
  lemma ValidHandleIgnoresPadding(lead: string, value: string, trail: string)
    requires AllTrimSpace(lead) && AllTrimSpace(trail)
    ensures IsValidHandle(lead + value + trail) == IsValidHandle(value)
  {
    TrimIgnoresPadding(lead, value, trail);
  }

  lemma TwoCharactersRejected()
    ensures !IsValidHandle("ab")
  {
    assert TrimStart("ab") == "ab";
    assert TrimEnd("ab") == "ab";
  }

  lemma ValidUser1Accepted()
    ensures IsValidHandle("valid_user1")
  {
    assert TrimStart("valid_user1") == "valid_user1";
    assert TrimEnd("valid_user1") == "valid_user1";
  }

  lemma ValidUser1WithAtAccepted()
    ensures IsValidHandle("@valid_user1")
  {
    assert TrimStart("@valid_user1") == "@valid_user1";
    assert TrimEnd("@valid_user1") == "@valid_user1";
  }

  lemma PaddedValidUser1Accepted()
    ensures IsValidHandle("  valid_user1\n")
  {
    ValidUser1Accepted();
    ValidHandleIgnoresPadding("  ", "valid_user1", "\n");
    assert "  " + "valid_user1" + "\n" == "  valid_user1\n";
  }

  lemma DoubleAtRejected()
    ensures !IsValidHandle("@@valid_user1")
  {
    var t := "@@valid_user1";
    assert TrimStart(t) == t;
    assert TrimEnd(t) == t;
    assert t[0] == '@' && t[1..][0] == '@';
    assert !IsHandleBody(t) && !IsHandleBody(t[1..]);
  }
}
