/** The Owner's customer endpoints: the checks a registration, a login and
    a password change run on their input before anything is stored. Each
    chain stops at the first failing check, whose message is the answer. A
    missing request field is `None`. */
module Registration {
  import opened Common

  // ---------------------------------------------------------------------------
  // Characters and trimming
  // ---------------------------------------------------------------------------

  /** What `String.trim` removes at either end: any character up to the
      space. */
  predicate IsTrimmed(c: char) { c <= ' ' }

  /** Text that is empty once trimmed. */
  predicate IsBlank(s: string) {
    forall i :: 0 <= i < |s| ==> IsTrimmed(s[i])
  }

  function TrimStart(s: string): (r: string)
    ensures |r| <= |s| && r == s[|s| - |r|..]
    ensures r == [] || !IsTrimmed(r[0])
    ensures IsBlank(s[..|s| - |r|])
    decreases |s|
  {
    if s != [] && IsTrimmed(s[0]) then
      var r := TrimStart(s[1..]);
      assert s[..|s| - |r|] == [s[0]] + s[1..][..|s| - 1 - |r|];
      r
    else s
  }

  function TrimEnd(s: string): (r: string)
    ensures |r| <= |s| && r == s[..|r|]
    ensures r == [] || !IsTrimmed(r[|r| - 1])
    ensures IsBlank(s[|r|..])
    decreases |s|
  {
    if s != [] && IsTrimmed(s[|s| - 1]) then
      var r := TrimEnd(s[..|s| - 1]);
      assert s[|r|..] == s[..|s| - 1][|r|..] + [s[|s| - 1]];
      r
    else s
  }

  /** `String.trim`: the text without the characters up to the space at
      either end. */
  function Trim(s: string): (r: string)
    ensures |r| <= |s|
    ensures r == [] || (!IsTrimmed(r[0]) && !IsTrimmed(r[|r| - 1]))
  {
    TrimEnd(TrimStart(s))
  }

  /** Trimming leaves nothing exactly when every character is one trim
      removes. */
  lemma {:induction false} TrimEmptyIffBlank(s: string)
    ensures Trim(s) == [] <==> IsBlank(s)
  {
  }

  predicate IsLetter(c: char) { 'A' <= c <= 'Z' || 'a' <= c <= 'z' }

  /** `[A-Za-z0-9+_.-]`, the characters of an address's local part. */
  predicate IsLocalChar(c: char) { IsLetter(c) || IsDigit(c) || c == '+' || c == '_' || c == '.' || c == '-' }

  /** `[A-Za-z0-9.-]`, the characters of the domain before its last dot. */
  predicate IsDomainChar(c: char) { IsLetter(c) || IsDigit(c) || c == '.' || c == '-' }

  /** `[0-9\s-]`, with `\s` the six whitespace characters of Java's regular
      expressions. */
  predicate IsPhoneChar(c: char) {
    IsDigit(c) || c == ' ' || c == '\t' || c == '\n' || c == '\U{0B}' || c == '\U{0C}' || c == '\r' || c == '-'
  }

  predicate AllLocal(s: string) { forall i :: 0 <= i < |s| ==> IsLocalChar(s[i]) }
  predicate AllDomain(s: string) { forall i :: 0 <= i < |s| ==> IsDomainChar(s[i]) }
  predicate AllLetters(s: string) { forall i :: 0 <= i < |s| ==> IsLetter(s[i]) }
  predicate AllPhone(s: string) { forall i :: 0 <= i < |s| ==> IsPhoneChar(s[i]) }

  // ---------------------------------------------------------------------------
  // The two patterns
  // ---------------------------------------------------------------------------

  /** What matching `^[A-Za-z0-9+_.-]+@[A-Za-z0-9.-]+\.[A-Za-z]{2,}$`
      against the whole text means: a split into local part, '@', domain,
      '.', and a final run of at least two letters. */
  ghost predicate MatchesEmailPattern(s: string) {
    exists i, j :: 0 < i && i + 1 < j && j + 2 < |s| && s[i] == '@' && s[j] == '.'
                   && AllLocal(s[..i]) && AllDomain(s[i + 1..j]) && AllLetters(s[j + 1..])
  }

  /** The position of the first occurrence of `c`, or the length. */
  function IndexOf(s: string, c: char): (k: nat)
    ensures k <= |s| && (k < |s| ==> s[k] == c)
    ensures forall i :: 0 <= i < k ==> s[i] != c
  {
    if s == [] then 0 else if s[0] == c then 0 else 1 + IndexOf(s[1..], c)
  }

  /** The position of the last occurrence of `c`, or -1. */
  function LastIndexOf(s: string, c: char): (k: int)
    ensures -1 <= k < |s| && (k >= 0 ==> s[k] == c)
    ensures forall i :: k < i < |s| ==> s[i] != c
  {
    if s == [] then -1 else if s[|s| - 1] == c then |s| - 1 else LastIndexOf(s[..|s| - 1], c)
  }

  /** The email check: split at the first '@' and the last '.', and test the
      three pieces. */
  function ValidEmail(s: string): (valid: bool)
    ensures valid ==> 0 < IndexOf(s, '@') && IndexOf(s, '@') + 1 < LastIndexOf(s, '.') && LastIndexOf(s, '.') + 2 < |s|
  {
    var at := IndexOf(s, '@');
    var dot := LastIndexOf(s, '.');
    0 < at && at + 1 < dot && dot + 2 < |s|
    && AllLocal(s[..at]) && AllDomain(s[at + 1..dot]) && AllLetters(s[dot + 1..])
  }

  /** The pieces the email check finds: the first '@' at `at`, the last '.'
      at `dot`, and what lies between them and around them. */
  predicate EmailSplit(s: string, at: nat, dot: nat) {
    0 < at && at + 1 < dot && dot + 2 < |s| && s[at] == '@' && s[dot] == '.'
    && (forall i :: 0 <= i < at ==> s[i] != '@')
    && AllLocal(s[..at]) && AllDomain(s[at + 1..dot]) && AllLetters(s[dot + 1..])
  }

  /** No local-part character is '@', so an '@' right after the local part
      is the first one. */
  lemma {:induction false} FirstAtAfterLocal(s: string, i: nat)
    requires i < |s| && s[i] == '@' && AllLocal(s[..i])
    ensures IndexOf(s, '@') == i
  {
    assert forall k :: 0 <= k < i ==> s[k] == s[..i][k];
  }

  /** No letter is '.', so a '.' followed only by letters is the last one. */
  lemma {:induction false} LastDotBeforeLetters(s: string, j: nat)
    requires j < |s| && s[j] == '.' && AllLetters(s[j + 1..])
    ensures LastIndexOf(s, '.') == j
  {
    assert forall k :: j < k < |s| ==> s[k] == s[j + 1..][k - j - 1];
  }

  /** The email check accepts exactly the text the pattern matches. */
  lemma {:induction false} ValidEmailMatchesPattern(s: string)
    ensures ValidEmail(s) <==> MatchesEmailPattern(s)
  {
    if ValidEmail(s) {
      var at, dot := IndexOf(s, '@'), LastIndexOf(s, '.');
      assert EmailSplit(s, at, dot);
    }
    if MatchesEmailPattern(s) {
      var i, j :| 0 < i && i + 1 < j && j + 2 < |s| && s[i] == '@' && s[j] == '.'
                  && AllLocal(s[..i]) && AllDomain(s[i + 1..j]) && AllLetters(s[j + 1..]);
      FirstAtAfterLocal(s, i);
      LastDotBeforeLetters(s, j);
    }
  }

  /** How many times `c` occurs in `s`. */
  function Occurrences(s: string, c: char): nat {
    if s == [] then 0 else (if s[0] == c then 1 else 0) + Occurrences(s[1..], c)
  }

  lemma {:induction false} OccurrencesAppend(a: string, b: string, c: char)
    ensures Occurrences(a + b, c) == Occurrences(a, c) + Occurrences(b, c)
  {
    if a == [] {
      assert a + b == b;
    } else {
      assert (a + b)[1..] == a[1..] + b;
      OccurrencesAppend(a[1..], b, c);
    }
  }

  lemma {:induction false} OccurrencesAbsent(t: string, c: char)
    requires forall i :: 0 <= i < |t| ==> t[i] != c
    ensures Occurrences(t, c) == 0
  {
    if t != [] {
      OccurrencesAbsent(t[1..], c);
    }
  }

  /** A split has one '@': none before it, and only domain characters, a dot
      and letters after it. */
  lemma {:induction false} OneAt(s: string, at: nat, dot: nat)
    requires EmailSplit(s, at, dot)
    ensures Occurrences(s, '@') == 1
  {
    var before, after := s[..at], s[at + 1..];
    assert forall i :: 0 <= i < |after| ==> after[i] != '@' by {
      forall i | 0 <= i < |after|
        ensures after[i] != '@'
      {
        if at + 1 + i < dot {
          assert after[i] == s[at + 1..dot][i];
        } else if at + 1 + i > dot {
          assert after[i] == s[dot + 1..][at + i - dot];
        }
      }
    }
    OccurrencesAbsent(before, '@');
    OccurrencesAbsent(after, '@');
    assert s == before + ([s[at]] + after);
    OccurrencesAppend(before, [s[at]] + after, '@');
    OccurrencesAppend([s[at]], after, '@');
  }

  /** An accepted address has exactly one '@', and ends in a dot and at least
      two letters. */
  lemma {:induction false} ValidEmailShape(s: string)
    requires ValidEmail(s)
    ensures Occurrences(s, '@') == 1
    ensures var dot := LastIndexOf(s, '.'); |s| - dot - 1 >= 2 && AllLetters(s[dot + 1..])
  {
    OneAt(s, IndexOf(s, '@'), LastIndexOf(s, '.'));
  }

  /** `^\+?[0-9\s-]{6,}$` against the whole text: an optional '+' and then at
      least six digits, whitespace characters or '-'. */
  function ValidPhone(s: string): (ok: bool)
    ensures ok <==> (|s| >= 6 && AllPhone(s)) || (|s| >= 7 && s[0] == '+' && AllPhone(s[1..]))
  {
    var rest := if |s| > 0 && s[0] == '+' then s[1..] else s;
    |rest| >= 6 && AllPhone(rest)
  }

  // ---------------------------------------------------------------------------
  // The check chains
  // ---------------------------------------------------------------------------

  predicate Missing(s: Option<string>) { s.None? || Trim(s.value) == [] }

  predicate ShortPassword(s: Option<string>) { s.None? || |s.value| < 6 }

  /** `register`'s checks, in their order; `None` lets the registration
      through. */
  function CheckRegistration(name: Option<string>, email: Option<string>, password: Option<string>, phone: Option<string>)
    : (error: Option<string>)
    ensures error == Some("Name is required") <==> Missing(name)
    ensures error == Some("Email is required") <==> !Missing(name) && Missing(email)
    ensures error == Some("Invalid email format") <==> !Missing(name) && !Missing(email) && !ValidEmail(email.value)
    ensures error == Some("Password must be at least 6 characters") <==>
              !Missing(name) && !Missing(email) && ValidEmail(email.value) && ShortPassword(password)
    ensures error == Some("Phone number is required") <==>
              !Missing(name) && !Missing(email) && ValidEmail(email.value) && !ShortPassword(password) && Missing(phone)
    ensures error == Some("Invalid phone number format") <==>
              !Missing(name) && !Missing(email) && ValidEmail(email.value) && !ShortPassword(password)
              && !Missing(phone) && !ValidPhone(phone.value)
    ensures error == None <==>
              !Missing(name) && !Missing(email) && ValidEmail(email.value) && !ShortPassword(password)
              && !Missing(phone) && ValidPhone(phone.value)
  {
    if Missing(name) then Some("Name is required")
    else if Missing(email) then Some("Email is required")
    else if !ValidEmail(email.value) then Some("Invalid email format")
    else if ShortPassword(password) then Some("Password must be at least 6 characters")
    else if Missing(phone) then Some("Phone number is required")
    else if !ValidPhone(phone.value) then Some("Invalid phone number format")
    else None
  }

  /** An accepted registration has a name and phone that are not blank, an
      address the pattern matches, and a password of six characters or more. */
  lemma {:induction false} AcceptedRegistration(name: Option<string>, email: Option<string>, password: Option<string>, phone: Option<string>)
    requires CheckRegistration(name, email, password, phone) == None
    ensures name.Some? && !IsBlank(name.value) && phone.Some? && !IsBlank(phone.value)
    ensures email.Some? && MatchesEmailPattern(email.value) && Occurrences(email.value, '@') == 1
    ensures password.Some? && |password.value| >= 6
  {
    TrimEmptyIffBlank(name.value);
    TrimEmptyIffBlank(phone.value);
    ValidEmailMatchesPattern(email.value);
    ValidEmailShape(email.value);
  }

  /** `login` only needs both fields. */
  function CheckLogin(email: Option<string>, password: Option<string>): (error: Option<string>)
    ensures error.None? <==> email.Some? && password.Some?
    ensures error.Some? ==> error.value == "Email and password are required"
  {
    if email.None? || password.None? then Some("Email and password are required") else None
  }

  /** `updatePassword` refuses a new password under six characters before
      it checks the old one. */
  function CheckNewPassword(newPassword: Option<string>): (error: Option<string>)
    ensures error.None? <==> newPassword.Some? && |newPassword.value| >= 6
    ensures error.Some? ==> error.value == "New password must be at least 6 characters"
  {
    if ShortPassword(newPassword) then Some("New password must be at least 6 characters") else None
  }

  /** Six or more spaces are a blank phone number, not a malformed one,
      although the pattern alone would accept them. */
  lemma {:induction false} BlankPhoneIsMissing(phone: string)
    requires |phone| >= 6 && forall i :: 0 <= i < |phone| ==> phone[i] == ' '
    ensures ValidPhone(phone) && Missing(Some(phone))
  {
    TrimEmptyIffBlank(phone);
  }
}
