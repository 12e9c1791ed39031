/** The input guards of the account handlers: the password-strength policy and
    the e-mail shape checked by `changePassword`, the phone and one-time-code
    length checks of the phone-verification handlers, and the token/reference
    match of `verifyEmail`. Each guard is a chain of early returns, modelled as
    a function whose result names the first failing check. */
module AccountChecks {
  import opened Common

  // ---------------------------------------------------------------- passwords

  const MinPasswordLength: nat := 8

  predicate IsLower(c: char) { 'a' <= c <= 'z' }
  predicate IsUpper(c: char) { 'A' <= c <= 'Z' }
  predicate IsDigit(c: char) { '0' <= c <= '9' }
  predicate IsSpecial(c: char) { c in "@$!%*?&" }
  predicate IsAllowed(c: char) { IsLower(c) || IsUpper(c) || IsDigit(c) || IsSpecial(c) }

  /** The strength policy as stated: at least eight characters, at least one of
      each of the four classes, and nothing outside them. */
  ghost predicate StrongPassword(p: string) {
    && |p| >= MinPasswordLength
    && (exists i :: 0 <= i < |p| && IsLower(p[i]))
    && (exists i :: 0 <= i < |p| && IsUpper(p[i]))
    && (exists i :: 0 <= i < |p| && IsDigit(p[i]))
    && (exists i :: 0 <= i < |p| && IsSpecial(p[i]))
    && (forall i :: 0 <= i < |p| ==> IsAllowed(p[i]))
  }

  /** What one left-to-right pass over a password has seen so far. */
  datatype Seen = Seen(lower: bool, upper: bool, digit: bool, special: bool, allAllowed: bool)

  /** The pass the pattern's look-aheads and character class make over the text. */
  function Scan(p: string): (r: Seen)
    ensures r.lower <==> exists i :: 0 <= i < |p| && IsLower(p[i])
    ensures r.upper <==> exists i :: 0 <= i < |p| && IsUpper(p[i])
    ensures r.digit <==> exists i :: 0 <= i < |p| && IsDigit(p[i])
    ensures r.special <==> exists i :: 0 <= i < |p| && IsSpecial(p[i])
    ensures r.allAllowed <==> forall i :: 0 <= i < |p| ==> IsAllowed(p[i])
  {
    if |p| == 0 then Seen(false, false, false, false, true)
    else
      var s := Scan(p[..|p| - 1]);
      var c := p[|p| - 1];
      assert forall i :: 0 <= i < |p| - 1 ==> p[..|p| - 1][i] == p[i];
      Seen(s.lower || IsLower(c), s.upper || IsUpper(c), s.digit || IsDigit(c),
           s.special || IsSpecial(c), s.allAllowed && IsAllowed(c))
  }

  /** The strength test as the handler runs it. */
  function PasswordStrong(p: string): (r: bool)
    ensures r <==> StrongPassword(p)
  {
    var s := Scan(p);
    |p| >= MinPasswordLength && s.lower && s.upper && s.digit && s.special && s.allAllowed
  }

  // ---------------------------------------------------------------- e-mail shape

  /** The characters `\s` matches in a JavaScript regular expression. */
  predicate IsSpace(c: char) {
    || c == '\t' || c == '\n' || c == '\U{000B}' || c == '\U{000C}' || c == '\r' || c == ' '
    || c == '\U{00A0}' || c == '\U{1680}' || ('\U{2000}' <= c <= '\U{200A}')
    || c == '\U{2028}' || c == '\U{2029}' || c == '\U{202F}' || c == '\U{205F}'
    || c == '\U{3000}' || c == '\U{FEFF}'
  }

  predicate NoSpace(s: string) {
    forall i :: 0 <= i < |s| ==> !IsSpace(s[i])
  }

  /** `\S+@\S+\.\S+` matching the whole text: no white space anywhere, an `@`
      with something before it, and a later `.` with something on each side. */
  ghost predicate EmailShape(s: string) {
    && NoSpace(s)
    && exists i, j :: 1 <= i && i + 2 <= j && j + 2 <= |s| && s[i] == '@' && s[j] == '.'
  }

  /** The first position of `ch` in `s`, or -1. */
  function FirstIndex(s: string, ch: char): (r: int)
    ensures -1 <= r < |s|
    ensures r >= 0 ==> s[r] == ch && forall k :: 0 <= k < r ==> s[k] != ch
    ensures r == -1 ==> forall k :: 0 <= k < |s| ==> s[k] != ch
  {
    if |s| == 0 then -1
    else if s[0] == ch then 0
    else
      var t := FirstIndex(s[1..], ch);
      if t == -1 then -1 else t + 1
  }

  /** The last position of `ch` in `s`, or -1. */
  function LastIndex(s: string, ch: char): (r: int)
    ensures -1 <= r < |s|
    ensures r >= 0 ==> s[r] == ch && forall k :: r < k < |s| ==> s[k] != ch
    ensures r == -1 ==> forall k :: 0 <= k < |s| ==> s[k] != ch
  {
    if |s| == 0 then -1
    else if s[|s| - 1] == ch then |s| - 1
    else LastIndex(s[..|s| - 1], ch)
  }

  /** The shape test as a matcher decides it: take the earliest `@` that has
      something before it and the latest `.` that has something after it. */
  function EmailLooksValid(s: string): (r: bool)
    ensures r <==> EmailShape(s)
  {
    if |s| < 2 then false
    else
      var at := FirstIndex(s[1..], '@');
      var dot := LastIndex(s[..|s| - 1], '.');
      if !NoSpace(s) || at == -1 || dot == -1 then false
      else if dot >= at + 3 then
        assert s[at + 1] == '@' && s[dot] == '.';
        true
      else
        assert !EmailShape(s);
        false
  }

  // ---------------------------------------------------------------- changePassword

  datatype ChangePasswordError = PasswordMissing | PasswordTooShort | PasswordWeak | BadUserEmail

  /** The guard chain of `changePassword`: the password must be present, then
      long enough, then strong; only then is the target user's e-mail shape
      checked. */
  function ChangePasswordCheck(password: Option<string>, user: Option<string>): (r: Option<ChangePasswordError>)
    ensures r == Some(PasswordMissing) <==> !Present(password)
    ensures r == Some(PasswordTooShort) <==> Present(password) && Utf16Length(password.value) < MinPasswordLength
    ensures r == Some(PasswordWeak) <==>
      Present(password) && Utf16Length(password.value) >= MinPasswordLength && !StrongPassword(password.value)
    ensures r == Some(BadUserEmail) <==>
      Present(password) && StrongPassword(password.value) && !(Present(user) && EmailShape(user.value))
    ensures r.None? <==>
      Present(password) && StrongPassword(password.value) && Present(user) && EmailShape(user.value)
  {
    if !Present(password) then Some(PasswordMissing)
    else if Utf16Length(password.value) < MinPasswordLength then Some(PasswordTooShort)
    else if !PasswordStrong(password.value) then Some(PasswordWeak)
    else if !Present(user) || !EmailLooksValid(user.value) then Some(BadUserEmail)
    else None
  }

  // ---------------------------------------------------------------- phone and one-time code

  const MaxPhoneLength: nat := 12
  const OtpLength: nat := 6

  datatype PhoneError = EmailMissing | PhoneMissing | PhoneTooLong | OtpMissing | OtpWrongLength | UserNotFound

  /** The phone rule shared by the phone handlers: present and at most twelve
      characters. It is all that guards `sendPhoneVerification`'s request for a code. */
  function PhoneCheck(phone: Option<string>): (r: Option<PhoneError>)
    ensures r == Some(PhoneMissing) <==> !Present(phone)
    ensures r == Some(PhoneTooLong) <==> Present(phone) && Utf16Length(phone.value) > MaxPhoneLength
    ensures r.None? <==> Present(phone) && 1 <= Utf16Length(phone.value) <= MaxPhoneLength
  {
    if !Present(phone) then Some(PhoneMissing)
    else if Utf16Length(phone.value) > MaxPhoneLength then Some(PhoneTooLong)
    else None
  }

  /** `verifyPhone`: e-mail, then phone, then phone length, then code present,
      then code of exactly six characters. */
  function VerifyPhoneCheck(email: Option<string>, phone: Option<string>, otp: Option<string>): (r: Option<PhoneError>)
    ensures r == Some(EmailMissing) <==> !Present(email)
    ensures r == Some(PhoneMissing) <==> Present(email) && !Present(phone)
    ensures r == Some(PhoneTooLong) <==> Present(email) && Present(phone) && Utf16Length(phone.value) > MaxPhoneLength
    ensures r == Some(OtpMissing) <==>
      Present(email) && Present(phone) && Utf16Length(phone.value) <= MaxPhoneLength && !Present(otp)
    ensures r == Some(OtpWrongLength) <==>
      Present(email) && Present(phone) && Utf16Length(phone.value) <= MaxPhoneLength && Present(otp) && Utf16Length(otp.value) != OtpLength
    ensures r.None? <==>
      Present(email) && Present(phone) && 1 <= Utf16Length(phone.value) <= MaxPhoneLength && Present(otp) && Utf16Length(otp.value) == OtpLength
  {
    if !Present(email) then Some(EmailMissing)
    else if PhoneCheck(phone).Some? then PhoneCheck(phone)
    else if !Present(otp) then Some(OtpMissing)
    else if Utf16Length(otp.value) != OtpLength then Some(OtpWrongLength)
    else None
  }

  /** `verifyPhoneTemp`: e-mail, then the phone rule, then the e-mail must
      belong to a registered user. */
  function VerifyPhoneTempCheck(email: Option<string>, phone: Option<string>, registered: set<string>)
    : (r: Option<PhoneError>)
    ensures r == Some(EmailMissing) <==> !Present(email)
    ensures r == Some(UserNotFound) <==>
      Present(email) && PhoneCheck(phone).None? && email.value !in registered
    ensures r.None? <==>
      Present(email) && Present(phone) && Utf16Length(phone.value) <= MaxPhoneLength && email.value in registered
  {
    if !Present(email) then Some(EmailMissing)
    else if PhoneCheck(phone).Some? then PhoneCheck(phone)
    else if email.value !in registered then Some(UserNotFound)
    else None
  }

  /** The three phone handlers refuse exactly the same phone numbers once an
      e-mail (and, for `verifyPhone`, a well-formed code) is supplied. */
  lemma PhoneRuleShared(email: string, phone: Option<string>, otp: string, registered: set<string>)
    requires email != "" && Utf16Length(otp) == OtpLength && email in registered
    ensures PhoneCheck(phone).None? <==> VerifyPhoneCheck(Some(email), phone, Some(otp)).None?
    ensures PhoneCheck(phone).None? <==> VerifyPhoneTempCheck(Some(email), phone, registered).None?
    ensures PhoneCheck(phone).Some? ==>
      && VerifyPhoneCheck(Some(email), phone, Some(otp)) == PhoneCheck(phone)
      && VerifyPhoneTempCheck(Some(email), phone, registered) == PhoneCheck(phone)
  {
  }

  /** Length is counted in UTF-16 code units, as the handlers' `.length` does:
      a code of three characters beyond U+FFFF (such as U+1F600) has six units
      and passes, although it is three characters long. */
  lemma AstralCodePasses(email: string, phone: string, c: char)
    requires email != "" && phone != "" && Utf16Length(phone) <= MaxPhoneLength
    requires c as int >= 0x1_0000
    ensures |[c, c, c]| != OtpLength
    ensures VerifyPhoneCheck(Some(email), Some(phone), Some([c, c, c])).None?
  {
    var otp := [c, c, c];
    assert Utf16Length(otp) == OtpLength by {
      assert forall i :: 0 <= i < |otp| ==> otp[i] as int >= 0x1_0000;
    }
  }

  /** Seven such characters make a fourteen-unit phone number, which is too long. */
  lemma AstralPhoneTooLong(c: char)
    requires c as int >= 0x1_0000
    ensures |[c, c, c, c, c, c, c]| <= MaxPhoneLength
    ensures PhoneCheck(Some([c, c, c, c, c, c, c])) == Some(PhoneTooLong)
  {
    var phone := [c, c, c, c, c, c, c];
    assert Utf16Length(phone) == 14 by {
      assert forall i :: 0 <= i < |phone| ==> phone[i] as int >= 0x1_0000;
    }
  }

  /** Four such characters make an eight-unit password: long enough, and then
      refused as weak because they are outside the allowed classes. */
  lemma AstralPasswordIsWeak(c: char, user: Option<string>)
    requires c as int >= 0x1_0000
    ensures |[c, c, c, c]| < MinPasswordLength
    ensures ChangePasswordCheck(Some([c, c, c, c]), user) == Some(PasswordWeak)
  {
    var p := [c, c, c, c];
    assert Utf16Length(p) == 8 by {
      assert forall i :: 0 <= i < |p| ==> p[i] as int >= 0x1_0000;
    }
    assert !IsAllowed(p[0]);
  }

  // ---------------------------------------------------------------- verifyEmail

  /** The activation token and reference code kept for an e-mail address, with
      the instant they were issued; the store drops them ten minutes later. */
  datatype Activation = Activation(token: string, ref: string, issuedAt: int)

  const ActivationLifetimeMs: int := 600 * 1000

  /** A kept pair is still readable strictly before its ten minutes are up. */
  predicate Live(kept: Activation, now: int) {
    now < kept.issuedAt + ActivationLifetimeMs
  }

  datatype EmailVerifyError = NoEmail | NoRef | NoToken | UnknownUser | CodeMismatch

  /** `verifyEmail`'s guards: e-mail, reference and token must be non-empty, the
      e-mail must belong to a user, and the token and reference must both equal
      the pair kept for that e-mail (a missing or expired pair never matches).
      Unknown user and mismatch answer with the same 404. */
  function VerifyEmailCheck(email: Option<string>, ref: Option<string>, token: Option<string>,
                            registered: set<string>, pending: map<string, Activation>, now: int)
    : (r: Option<EmailVerifyError>)
    ensures r == Some(NoEmail) <==> !Present(email)
    ensures r == Some(NoRef) <==> Present(email) && !Present(ref)
    ensures r == Some(NoToken) <==> Present(email) && Present(ref) && !Present(token)
    ensures r.None? <==>
      && Present(email) && Present(ref) && Present(token)
      && email.value in registered && email.value in pending
      && pending[email.value].token == token.value && pending[email.value].ref == ref.value
      && Live(pending[email.value], now)
  {
    if !Present(email) then Some(NoEmail)
    else if !Present(ref) then Some(NoRef)
    else if !Present(token) then Some(NoToken)
    else if email.value !in registered then Some(UnknownUser)
    else match Lookup(pending, email.value)
      case None => Some(CodeMismatch)
      case Some(kept) =>
        if !Live(kept, now) then Some(CodeMismatch)
        else if token.value != kept.token || ref.value != kept.ref then Some(CodeMismatch)
        else None
  }
}
