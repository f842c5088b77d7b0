/**
  The registration input rules of `register_user`: the e-mail pattern
  `^[a-zA-Z0-9_.+-]+@[a-zA-Z0-9-]+\.[a-zA-Z0-9-.]+$`, the username pattern
  `^[a-zA-Z0-9_]+$`, and the minimum lengths, which Rust's `String::len`
  counts in UTF-8 bytes.
*/
module Validation {

  predicate IsAsciiAlphanumeric(c: char) {
    'a' <= c <= 'z' || 'A' <= c <= 'Z' || '0' <= c <= '9'
  }

  /** `[a-zA-Z0-9_]`: the characters of a username. */
  predicate IsUsernameChar(c: char) {
    IsAsciiAlphanumeric(c) || c == '_'
  }

  /** `[a-zA-Z0-9_.+-]`: the characters before the `@`. */
  predicate IsLocalPartChar(c: char) {
    IsAsciiAlphanumeric(c) || c == '_' || c == '.' || c == '+' || c == '-'
  }

  /** `[a-zA-Z0-9-]`: the characters of the first domain label (no dot). */
  predicate IsLabelChar(c: char) {
    IsAsciiAlphanumeric(c) || c == '-'
  }

  /** `[a-zA-Z0-9-.]`: the characters after the first dot of the domain. */
  predicate IsDomainTailChar(c: char) {
    IsAsciiAlphanumeric(c) || c == '-' || c == '.'
  }

  /** The end of the longest run of characters satisfying `p` that starts at `from`. */
  function Span(s: string, from: nat, p: char -> bool): (end: nat)
    requires from <= |s|
    ensures from <= end <= |s|
    ensures forall k :: from <= k < end ==> p(s[k])
    ensures end < |s| ==> !p(s[end])
    decreases |s| - from
  {
    if from == |s| || !p(s[from]) then from else Span(s, from + 1, p)
  }

  /**
    The hand-rolled e-mail matcher. None of the three classes contains `@`
    and the label class has no dot, so the `@` of a match is the first
    character outside the local-part class and the `\.` is the first
    character after it outside the label class.
  */
  function MatchesEmail(s: string): (r: bool)
    ensures r ==> EmailPattern(s)
  {
    var at := Span(s, 0, IsLocalPartChar);
    if 0 < at < |s| && s[at] == '@' then
      var dot := Span(s, at + 1, IsLabelChar);
      if at + 1 < dot < |s| - 1 && s[dot] == '.' && Span(s, dot + 1, IsDomainTailChar) == |s| then
        assert EmailSplit(s, at, dot);
        true
      else false
    else false
  }

  /** `s` splits as local-part `@` label `.` tail at positions `at` and `dot`. */
  ghost predicate EmailSplit(s: string, at: nat, dot: nat) {
    && 0 < at && at + 1 < dot && dot + 1 < |s|
    && s[at] == '@' && s[dot] == '.'
    && (forall k :: 0 <= k < at ==> IsLocalPartChar(s[k]))
    && (forall k :: at < k < dot ==> IsLabelChar(s[k]))
    && (forall k :: dot < k < |s| ==> IsDomainTailChar(s[k]))
  }

  /** What the anchored regular expression accepts: some split exists. */
  ghost predicate EmailPattern(s: string) {
    exists at: nat, dot: nat :: EmailSplit(s, at, dot)
  }

  lemma EmailMatcherIsPattern(s: string)
    ensures MatchesEmail(s) <==> EmailPattern(s)
  {
    var at := Span(s, 0, IsLocalPartChar);
    if EmailPattern(s) {
      var i: nat, j: nat :| EmailSplit(s, i, j);
      // the run of local-part characters stops exactly at the `@`, the
      // run of label characters exactly at the dot
      assert at == i;
      var dot := Span(s, at + 1, IsLabelChar);
      assert dot == j;
    }
  }

  /**
    `^[a-zA-Z0-9_]+$`. A matching username is ASCII, so its byte length is
    its character count, and it has no `@`.
  */
  function MatchesUsername(s: string): (r: bool)
    ensures r ==> Utf8Length(s) == |s|
    ensures r ==> !MatchesEmail(s)
  {
    if |s| > 0 && forall k :: 0 <= k < |s| ==> IsUsernameChar(s[k]) then
      AsciiUtf8Length(s);
      true
    else false
  }

  /** The number of bytes of `c` in UTF-8. */
  function Utf8Width(c: char): nat {
    if c as int < 0x80 then 1
    else if c as int < 0x800 then 2
    else if c as int < 0x1_0000 then 3
    else 4
  }

  /** `String::len`: the length of `s` in UTF-8 bytes. */
  function Utf8Length(s: string): (n: nat)
    ensures |s| <= n <= 4 * |s|
  {
    if s == [] then 0 else Utf8Width(s[0]) + Utf8Length(s[1..])
  }

  lemma {:induction false} AsciiUtf8Length(s: string)
    requires forall k :: 0 <= k < |s| ==> s[k] as int < 0x80
    ensures Utf8Length(s) == |s|
  {
    if s != [] {
      AsciiUtf8Length(s[1..]);
    }
  }

  /** The condition of `register_user`; it is true when the request passes. */
  function ValidRegistration(username: string, email: string, password: string): (r: bool)
    ensures r ==> EmailPattern(email) && |username| >= 3 && |password| >= 2
  {
    MatchesEmail(email) && MatchesUsername(username)
    && Utf8Length(username) >= 3 && Utf8Length(password) >= 8
  }

  /**
    The checks stated in terms of the patterns: a matching username is ASCII,
    so its byte length is its character count; the password is measured in
    bytes.
  */
  lemma ValidRegistrationMeaning(username: string, email: string, password: string)
    ensures ValidRegistration(username, email, password) <==>
      && EmailPattern(email)
      && |username| >= 3 && (forall k :: 0 <= k < |username| ==> IsUsernameChar(username[k]))
      && Utf8Length(password) >= 8
  {
    EmailMatcherIsPattern(email);
    if forall k :: 0 <= k < |username| ==> IsUsernameChar(username[k]) {
      AsciiUtf8Length(username);
    }
  }

  /** Any password of eight or more characters passes; fewer characters can pass if they are wide. */
  lemma PasswordLengthIsBytes()
    ensures forall p: string :: |p| >= 8 ==> Utf8Length(p) >= 8
    ensures Utf8Length("\U{1F600}\U{1F600}") == 8
    ensures Utf8Length("passwor") == 7
  {
  }

  /** The registration of the example user passes. */
  lemma ExampleRegistrationPasses()
    ensures ValidRegistration("alice", "alice@x.com", "password123")
  {
  }

  lemma ShortFieldsRejected()
    ensures !ValidRegistration("al", "alice@x.com", "password123")
    ensures !ValidRegistration("alice", "alice@x.com", "passwor")
  {
  }

  /** Dots are free after the first one of the domain. */
  lemma RepeatedDotAccepted()
    ensures MatchesEmail("a@b..c")
  {
    assert Span("a@b..c", 2, IsLabelChar) == 3;
    assert Span("a@b..c", 4, IsDomainTailChar) == 6;
  }

  /** The first label of the domain is not empty. */
  lemma EmptyLabelRejected()
    ensures !MatchesEmail("alice@.x.com")
  {
    assert Span("alice@.x.com", 6, IsLabelChar) == 6;
  }

  lemma MissingPartsRejected()
    ensures !MatchesEmail("alice@x")
    ensures !MatchesEmail("@x.com")
  {
  }

  /** A second `@` in the domain is refused. */
  lemma SecondAtRejected()
    ensures !MatchesEmail("a@b.c@d")
  {
    assert Span("a@b.c@d", 4, IsDomainTailChar) == 5;
  }
}
