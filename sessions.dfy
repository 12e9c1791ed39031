/** User accounts and their device sessions: `register`'s field and duplicate
    checks, `login`'s update of the logged-in device list under a fifty-device
    cap, `logout`'s removal of one device fingerprint, and the account writes
    of `changePassword` and `verifyEmail`. An account's id is its position in
    the account list. */
module Sessions {
  import opened Common
  import opened AccountChecks

  const MaxDevices: nat := 50

  /** One entry of an account's logged-in device list. */
  datatype Device = Device(fingerprint: string, lastLogin: int)

  /** The stored user record; `password` holds the hash the handler computed. */
  datatype Account = Account(
    name: string,
    email: string,
    businessId: string,
    password: string,
    userType: string,
    activated: bool,
    emailVerified: bool,
    phoneVerified: bool,
    devices: seq<Device>)

  // ---------------------------------------------------------------- device lists

  /** The position of the first entry with fingerprint `fp`, or -1. */
  function FindDevice(devices: seq<Device>, fp: string): (r: int)
    ensures -1 <= r < |devices|
    ensures r == -1 <==> forall k :: 0 <= k < |devices| ==> devices[k].fingerprint != fp
    ensures r >= 0 ==> devices[r].fingerprint == fp && forall k :: 0 <= k < r ==> devices[k].fingerprint != fp
  {
    if |devices| == 0 then -1
    else if devices[0].fingerprint == fp then 0
    else
      var t := FindDevice(devices[1..], fp);
      if t == -1 then -1 else t + 1
  }

  /** The device list after a login from `fp` at `now`: an unseen fingerprint
      gets a new entry at the end; a known one has only its first entry's
      login time renewed. Either way the entry a later login finds is the one
      just written. */
  function Touched(devices: seq<Device>, fp: string, now: int): (r: seq<Device>)
    ensures var idx := FindDevice(devices, fp);
      && |r| == (if idx == -1 then |devices| + 1 else |devices|)
      && (forall k :: 0 <= k < |devices| && k != idx ==> r[k] == devices[k])
      && FindDevice(r, fp) == (if idx == -1 then |devices| else idx)
      && r[FindDevice(r, fp)] == Device(fp, now)
  {
    var idx := FindDevice(devices, fp);
    var r := if idx == -1 then devices + [Device(fp, now)] else devices[idx := devices[idx].(lastLogin := now)];
    assert forall k :: 0 <= k < |devices| && k != idx ==> r[k] == devices[k];
    var at := if idx == -1 then |devices| else idx;
    assert r[at].fingerprint == fp && forall k :: 0 <= k < at ==> r[k].fingerprint != fp;
    r
  }

  /** Logging in again from the same device never lengthens the list. */
  lemma RepeatLoginKeepsLength(devices: seq<Device>, fp: string, t1: int, t2: int)
    ensures |Touched(Touched(devices, fp, t1), fp, t2)| == |Touched(devices, fp, t1)|
  {
  }

  /** The list after a logout from `fp`: every entry with that fingerprint is
      dropped and the rest keep their order. */
  function WithoutDevice(devices: seq<Device>, fp: string): (r: seq<Device>)
    ensures forall d :: d in r <==> d in devices && d.fingerprint != fp
    ensures |r| <= |devices|
    ensures (forall k :: 0 <= k < |devices| ==> devices[k].fingerprint != fp) ==> r == devices
  {
    if |devices| == 0 then []
    else
      var rest := WithoutDevice(devices[1..], fp);
      assert forall d :: d in devices <==> d == devices[0] || d in devices[1..];
      if devices[0].fingerprint == fp then rest else [devices[0]] + rest
  }

  /** Removal works piecewise, which is what keeps the survivors in order. */
  lemma {:induction false} WithoutDeviceAppend(a: seq<Device>, b: seq<Device>, fp: string)
    ensures WithoutDevice(a + b, fp) == WithoutDevice(a, fp) + WithoutDevice(b, fp)
  {
    if |a| > 0 {
      assert (a + b)[1..] == a[1..] + b;
      WithoutDeviceAppend(a[1..], b, fp);
    } else {
      assert a + b == b;
    }
  }

  /** One step of the removal: the first entry goes or stays, the rest is filtered. */
  lemma WithoutDeviceFirst(devices: seq<Device>, fp: string)
    requires |devices| > 0
    ensures WithoutDevice(devices, fp) ==
      (if devices[0].fingerprint == fp then [] else [devices[0]]) + WithoutDevice(devices[1..], fp)
  {
  }

  /** Overwriting an entry of fingerprint `fp` with another of that fingerprint
      leaves what a logout from `fp` keeps unchanged. */
  lemma {:induction false} WithoutDeviceReplace(devices: seq<Device>, idx: nat, d: Device, fp: string)
    requires idx < |devices| && devices[idx].fingerprint == fp && d.fingerprint == fp
    ensures WithoutDevice(devices[idx := d], fp) == WithoutDevice(devices, fp)
  {
    var e := devices[idx := d];
    WithoutDeviceFirst(e, fp);
    WithoutDeviceFirst(devices, fp);
    if idx > 0 {
      assert e[1..] == devices[1..][idx - 1 := d];
      WithoutDeviceReplace(devices[1..], idx - 1, d, fp);
    } else {
      assert e[1..] == devices[1..];
    }
  }

  /** Logging out from a device undoes every trace of logging in from it. */
  lemma LogoutUndoesLogin(devices: seq<Device>, fp: string, now: int)
    ensures WithoutDevice(Touched(devices, fp, now), fp) == WithoutDevice(devices, fp)
  {
    var idx := FindDevice(devices, fp);
    if idx == -1 {
      WithoutDeviceAppend(devices, [Device(fp, now)], fp);
    } else {
      WithoutDeviceReplace(devices, idx, devices[idx].(lastLogin := now), fp);
    }
  }

  /** A second logout from the same device changes nothing. */
  lemma {:induction false} LogoutIdempotent(devices: seq<Device>, fp: string)
    ensures WithoutDevice(WithoutDevice(devices, fp), fp) == WithoutDevice(devices, fp)
  {
    var r := WithoutDevice(devices, fp);
    forall k | 0 <= k < |r|
      ensures r[k].fingerprint != fp
    {
      assert r[k] in r;
    }
  }

  // ---------------------------------------------------------------- accounts

  /** The position of the first account with e-mail `email`, or -1. */
  function FindAccount(accounts: seq<Account>, email: string): (r: int)
    ensures -1 <= r < |accounts|
    ensures r == -1 <==> forall k :: 0 <= k < |accounts| ==> accounts[k].email != email
    ensures r >= 0 ==> accounts[r].email == email && forall k :: 0 <= k < r ==> accounts[k].email != email
  {
    if |accounts| == 0 then -1
    else if accounts[0].email == email then 0
    else
      var t := FindAccount(accounts[1..], email);
      if t == -1 then -1 else t + 1
  }

  function Emails(accounts: seq<Account>): (r: set<string>)
    ensures forall e :: e in r <==> exists k :: 0 <= k < |accounts| && accounts[k].email == e
  {
    set a | a in accounts :: a.email
  }

  datatype RegisterRequest =
    RegisterRequest(name: Option<string>, email: Option<string>, password: Option<string>, userType: Option<string>)

  datatype RegisterError =
    | EmptyBody | NameEmpty | EmailEmpty | PasswordEmpty | BusinessIdEmpty | AlreadyExists
    | UnknownUserType

  /** The account kind asked for; an absent or empty one means "regular". */
  function KindOf(userType: Option<string>): string {
    if Present(userType) then userType.value else "regular"
  }

  /** Only these two kinds have a profile record to create; for any other kind
      the handler fails on the missing record and answers 500. */
  predicate KnownKind(kind: string) {
    kind == "regular" || kind == "Organization"
  }

  /** `register`'s checks in order: a body, a name, an e-mail, a password, a
      business-id header, no account with the same e-mail under the same
      business id, and then, only for a new account, a known account kind. */
  function RegisterRejection(accounts: seq<Account>, body: Option<RegisterRequest>, businessId: Option<string>)
    : (r: Option<RegisterError>)
    ensures r == Some(EmptyBody) <==> body.None?
    ensures r == Some(NameEmpty) <==> body.Some? && !Present(body.value.name)
    ensures r == Some(EmailEmpty) <==> body.Some? && Present(body.value.name) && !Present(body.value.email)
    ensures r == Some(PasswordEmpty) <==>
      body.Some? && Present(body.value.name) && Present(body.value.email) && !Present(body.value.password)
    ensures r == Some(BusinessIdEmpty) <==>
      && body.Some? && Present(body.value.name) && Present(body.value.email) && Present(body.value.password)
      && !Present(businessId)
    ensures r == Some(AlreadyExists) <==>
      && body.Some? && Present(body.value.name) && Present(body.value.email) && Present(body.value.password)
      && Present(businessId)
      && exists k :: 0 <= k < |accounts| && accounts[k].email == body.value.email.value
                                          && accounts[k].businessId == businessId.value
    ensures r == Some(UnknownUserType) <==>
      && body.Some? && Present(body.value.name) && Present(body.value.email) && Present(body.value.password)
      && Present(businessId)
      && (forall k :: 0 <= k < |accounts| ==>
            !(accounts[k].email == body.value.email.value && accounts[k].businessId == businessId.value))
      && !KnownKind(KindOf(body.value.userType))
    ensures r.None? <==>
      && body.Some? && Present(body.value.name) && Present(body.value.email) && Present(body.value.password)
      && Present(businessId)
      && (forall k :: 0 <= k < |accounts| ==>
            !(accounts[k].email == body.value.email.value && accounts[k].businessId == businessId.value))
      && KnownKind(KindOf(body.value.userType))
  {
    if body.None? then Some(EmptyBody)
    else if !Present(body.value.name) then Some(NameEmpty)
    else if !Present(body.value.email) then Some(EmailEmpty)
    else if !Present(body.value.password) then Some(PasswordEmpty)
    else if !Present(businessId) then Some(BusinessIdEmpty)
    else if exists k :: 0 <= k < |accounts| && accounts[k].email == body.value.email.value
                                            && accounts[k].businessId == businessId.value
    then Some(AlreadyExists)
    else if !KnownKind(KindOf(body.value.userType)) then Some(UnknownUserType)
    else None
  }

  /** A freshly registered account can be verified with the token and
      reference stored for it at registration, exactly while the pair is less
      than ten minutes old. */
  lemma RegisteredCanVerify(accounts: seq<Account>, pending: map<string, Activation>, created: Account,
                            token: string, ref: string, issuedAt: int, now: int)
    requires created.email != "" && token != "" && ref != ""
    ensures VerifyEmailCheck(Some(created.email), Some(ref), Some(token), Emails(accounts + [created]),
                             pending[created.email := Activation(token, ref, issuedAt)], now).None?
        <==> now < issuedAt + ActivationLifetimeMs
  {
    assert (accounts + [created])[|accounts|] == created;
  }

  datatype LoginError = InvalidHeaders | InvalidBody | Unauthorized | LimitExceeded

  datatype LogoutError = NoFingerprint | NoBusinessHeader | NoSuchUser

  datatype PasswordChangeError = Invalid(why: ChangePasswordError) | AccountNotFound

  class UserDirectory {
    var accounts: seq<Account>
    /** The activation token and reference kept per e-mail until verified. */
    var pending: map<string, Activation>

    constructor ()
      ensures accounts == [] && pending == map[]
    {
      accounts, pending := [], map[];
    }

    /** `register`: on success a new unverified account of the requested kind
        with no devices is stored, and an activation pair issued at `now` is
        kept for its e-mail. The password hash and the random token and
        reference are supplied by the caller. */
    method Register(body: Option<RegisterRequest>, businessId: Option<string>, hashed: string, token: string, ref: string,
                    now: int)
      returns (r: Result<nat, RegisterError>)
      modifies this
      ensures var why := RegisterRejection(old(accounts), body, businessId);
        && (why.Some? ==> r == Err(why.value) && unchanged(this))
        && (why.None? ==>
              var req := body.value;
              && r == Ok(old(|accounts|))
              && accounts == old(accounts) + [Account(req.name.value, req.email.value, businessId.value, hashed,
                                                       KindOf(req.userType), false, false, false, [])]
              && pending == old(pending)[req.email.value := Activation(token, ref, now)])
    {
      var why := RegisterRejection(accounts, body, businessId);
      if why.Some? {
        return Err(why.value);
      }
      var req := body.value;
      r := Ok(|accounts|);
      accounts := accounts + [Account(req.name.value, req.email.value, businessId.value, hashed,
                                      KindOf(req.userType), false, false, false, [])];
      pending := pending[req.email.value := Activation(token, ref, now)];
    }

    /** `login`: header check, body check, authentication (its outcome `who`
        is supplied), then the device cap, which refuses a fiftieth-plus login
        even from a known device; then the device list is touched. */
    method Login(fingerprint: Option<string>, businessId: Option<string>, bodyValid: bool, who: Option<nat>, now: int)
      returns (r: Option<LoginError>)
      requires who.Some? ==> who.value < |accounts|
      modifies this
      ensures pending == old(pending)
      ensures !Present(fingerprint) || !Present(businessId) ==> r == Some(InvalidHeaders) && unchanged(this)
      ensures Present(fingerprint) && Present(businessId) && !bodyValid ==> r == Some(InvalidBody) && unchanged(this)
      ensures Present(fingerprint) && Present(businessId) && bodyValid && who.None? ==>
        r == Some(Unauthorized) && unchanged(this)
      ensures Present(fingerprint) && Present(businessId) && bodyValid && who.Some? ==>
        var u := who.value;
        var before := old(accounts[u].devices);
        && (|before| >= MaxDevices ==> r == Some(LimitExceeded) && unchanged(this))
        && (|before| < MaxDevices ==>
              && r.None?
              && accounts == old(accounts)[u := old(accounts[u]).(devices := Touched(before, fingerprint.value, now))]
              && |accounts[u].devices| <= MaxDevices)
    {
      if !Present(fingerprint) || !Present(businessId) {
        return Some(InvalidHeaders);
      }
      if !bodyValid {
        return Some(InvalidBody);
      }
      if who.None? {
        return Some(Unauthorized);
      }
      var u := who.value;
      var account := accounts[u];
      var devices := account.devices;
      if |devices| >= MaxDevices {
        return Some(LimitExceeded);
      }
      var idx := FindDevice(devices, fingerprint.value);
      if idx == -1 {
        devices := devices + [Device(fingerprint.value, now)];
      } else {
        devices := devices[idx := devices[idx].(lastLogin := now)];
      }
      accounts := accounts[u := account.(devices := devices)];
      r := None;
    }

    /** `logout`: fingerprint header, business-id header, then the user must
        exist; every entry with that fingerprint is then dropped. */
    method Logout(fingerprint: Option<string>, businessId: Option<string>, user: nat) returns (r: Option<LogoutError>)
      modifies this
      ensures pending == old(pending)
      ensures !Present(fingerprint) ==> r == Some(NoFingerprint) && unchanged(this)
      ensures Present(fingerprint) && !Present(businessId) ==> r == Some(NoBusinessHeader) && unchanged(this)
      ensures Present(fingerprint) && Present(businessId) && user >= old(|accounts|) ==>
        r == Some(NoSuchUser) && unchanged(this)
      ensures Present(fingerprint) && Present(businessId) && user < old(|accounts|) ==>
        && r.None?
        && accounts == old(accounts)[user := old(accounts[user]).(devices :=
                                                WithoutDevice(old(accounts[user].devices), fingerprint.value))]
    {
      if !Present(fingerprint) {
        return Some(NoFingerprint);
      }
      if !Present(businessId) {
        return Some(NoBusinessHeader);
      }
      if user >= |accounts| {
        return Some(NoSuchUser);
      }
      var account := accounts[user];
      accounts := accounts[user := account.(devices := WithoutDevice(account.devices, fingerprint.value))];
      r := None;
    }

    /** `changePassword`: the guard chain, then the first account with the
        given e-mail gets the new hash; no such account is a 404. */
    method ChangePassword(password: Option<string>, user: Option<string>, hashed: string)
      returns (r: Option<PasswordChangeError>)
      modifies this
      ensures pending == old(pending)
      ensures ChangePasswordCheck(password, user).Some? ==>
        r == Some(Invalid(ChangePasswordCheck(password, user).value)) && unchanged(this)
      ensures ChangePasswordCheck(password, user).None? ==>
        var idx := FindAccount(old(accounts), user.value);
        && (idx == -1 ==> r == Some(AccountNotFound) && unchanged(this))
        && (idx >= 0 ==> r.None? && accounts == old(accounts)[idx := old(accounts[idx]).(password := hashed)])
    {
      var why := ChangePasswordCheck(password, user);
      if why.Some? {
        return Some(Invalid(why.value));
      }
      var idx := FindAccount(accounts, user.value);
      if idx == -1 {
        return Some(AccountNotFound);
      }
      accounts := accounts[idx := accounts[idx].(password := hashed)];
      r := None;
    }

    /** `verifyEmail`: on a matching pair the first account with that e-mail
        is marked activated with e-mail and phone verified, and the pair is
        discarded. */
    method VerifyEmail(email: Option<string>, ref: Option<string>, token: Option<string>, now: int)
      returns (r: Option<EmailVerifyError>)
      modifies this
      ensures var why := VerifyEmailCheck(email, ref, token, Emails(old(accounts)), old(pending), now);
        && (why.Some? ==> r == why && unchanged(this))
        && (why.None? ==>
              var idx := FindAccount(old(accounts), email.value);
              && r.None? && 0 <= idx
              && accounts == old(accounts)[idx := old(accounts[idx]).(activated := true, emailVerified := true,
                                                                     phoneVerified := true)]
              && pending == old(pending) - {email.value})
    {
      var why := VerifyEmailCheck(email, ref, token, Emails(accounts), pending, now);
      if why.Some? {
        return why;
      }
      var idx := FindAccount(accounts, email.value);
      var account := accounts[idx];
      accounts := accounts[idx := account.(activated := true, emailVerified := true, phoneVerified := true)];
      pending := pending - {email.value};
      r := None;
    }
  }
}
