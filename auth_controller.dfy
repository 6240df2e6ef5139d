/**
 * Accounts (server/controllers/authController.js): registration, the login
 * gate, the two-factor code's lifecycle (issued at login or on request,
 * valid for ten minutes, cleared on use), profile updates and the admin's
 * user management. Password hashing and comparison are bcrypt's and enter
 * as parameters (`hash`, `matches`); the random six-digit code enters as
 * the parameter `code`; tokens and e-mail are not part of this model.
 */
module AuthController {
  import opened Common
  import opened Sorting
  import opened Time
  import opened UserModel
  import opened Store
  import Text

  /**
   * The e-mail as the schema's setters store it, and as they cast it in a
   * query filter: lower-cased and trimmed.
   */
  function EmailKey(email: string): (r: string)
    ensures |r| <= |email|
    ensures forall i :: 0 <= i < |r| ==> !('A' <= r[i] <= 'Z')
    ensures r == [] <==> IsBlank(email)
  {
    var t := Trim(email);
    Text.Lower(t)
  }

  /** The first stored account whose e-mail is `key`, among ids below `n`. */
  function FindByKey(users: map<Id, User>, n: nat, key: string): (r: Option<Id>)
    ensures r.Some? ==> r.value < n && r.value in users && users[r.value].email == key
    ensures r.Some? ==> forall k :: k in users && k < r.value ==> users[k].email != key
    ensures r.None? <==> forall k :: k in users && k < n ==> users[k].email != key
  {
    if n == 0 then None
    else
      var r := FindByKey(users, n - 1, key);
      if r.Some? then r
      else if n - 1 in users && users[n - 1].email == key then Some(n - 1)
      else None
  }

  /**
   * `User.findOne({ email })`: the filter value is cast by the schema too, so
   * spellings that differ in case or surrounding spaces find the same account.
   */
  function FindByEmail(users: map<Id, User>, n: nat, email: string): (r: Option<Id>)
    ensures r.Some? ==> r.value < n && r.value in users && users[r.value].email == EmailKey(email)
    ensures r.Some? ==> forall k :: k in users && k < r.value ==> users[k].email != EmailKey(email)
    ensures r.None? <==> forall k :: k in users && k < n ==> users[k].email != EmailKey(email)
  {
    FindByKey(users, n, EmailKey(email))
  }

  // ------------------------------------------------------------- register

  /** The body of `POST /auth/register`; an empty string is absent. */
  datatype RegisterForm = RegisterForm(
    name: string,
    email: string,
    password: string,
    role: string,
    phone: string,
    specialty: Option<string>)

  /**
   * The account `register` creates: the requested role or parent, a
   * specialty only for a doctor, active, without two-factor and with
   * the hashed password; the schema's setters lower-case and trim the
   * e-mail and trim the name, phone and specialty. A role outside the enum
   * fails validation (500).
   */
  function NewUser(f: RegisterForm, hash: string -> string): (r: Result<User>)
    ensures r.Err? <==> f.role != "" && ParseRole(f.role).None?
    ensures r.Err? ==> r.error == InternalError
    ensures r.Ok? ==> r.value.role == (if f.role == "" then Parent else ParseRole(f.role).value)
    ensures r.Ok? && f.role == "" ==> r.value.role == Parent
    ensures r.Ok? ==> r.value.specialty == (if f.role == "doctor" && f.specialty.Some? then Some(Trim(f.specialty.value)) else None)
    ensures r.Ok? && r.value.specialty.Some? ==> r.value.role == Doctor
    ensures r.Ok? ==> r.value.name == Trim(f.name) && r.value.email == EmailKey(f.email) && r.value.phone == Trim(f.phone) && r.value.address == ""
    ensures r.Ok? ==> r.value.passwordHash == hash(f.password)
    ensures r.Ok? ==> r.value.isActive && !r.value.twoFactorEnabled && r.value.twoFactorCode.None? && r.value.twoFactorExpires.None?
  {
    var role := ParseRole(OrElse(f.role, "parent"));
    if role.None? then Err(InternalError)
    else
      Ok(User(EmailKey(f.email), hash(f.password), Trim(f.name), Trim(f.phone), role.value,
              if f.role == "doctor" && f.specialty.Some? then Some(Trim(f.specialty.value)) else None,
              "", true, false, None, None))
  }

  /** `register`: 400 when the e-mail is taken; otherwise the new account. */
  method Register(db: Db, f: RegisterForm, hash: string -> string) returns (r: Result<Id>)
    requires db.Valid()
    modifies db`users, db`nextId
    ensures db.Valid()
    ensures FindByEmail(old(db.users), old(db.nextId), f.email).Some? ==> r == Err(BadRequest)
    ensures FindByEmail(old(db.users), old(db.nextId), f.email).None? && NewUser(f, hash).Err? ==> r == Err(InternalError)
    ensures r.Err? ==> db.users == old(db.users) && db.nextId == old(db.nextId)
    ensures r.Ok? ==> NewUser(f, hash).Ok? && r.value == old(db.nextId) && db.nextId == r.value + 1
    ensures r.Ok? ==> db.users == old(db.users)[r.value := NewUser(f, hash).value]
  {
    if FindByEmail(db.users, db.nextId, f.email).Some? {
      return Err(BadRequest);
    }
    var u := NewUser(f, hash);
    if u.Err? {
      return Err(InternalError);
    }
    var id := db.AddUser(u.value);
    r := Ok(id);
  }

  // ---------------------------------------------------------------- login

  /**
   * The login gate, in the source's order: an unknown e-mail and a wrong
   * password both give 401, then a deactivated account 403.
   */
  function Authenticate(users: map<Id, User>, n: nat, email: string, password: string, matches: (string, string) -> bool): (r: Result<Id>)
    ensures r.Err? ==> r.error in {Unauthorized, Forbidden}
    ensures r == Err(Unauthorized) <==>
      FindByEmail(users, n, email).None? || !matches(password, users[FindByEmail(users, n, email).value].passwordHash)
    ensures r == Err(Forbidden) <==>
      FindByEmail(users, n, email).Some? && matches(password, users[FindByEmail(users, n, email).value].passwordHash) &&
      !users[FindByEmail(users, n, email).value].isActive
    ensures r.Ok? ==> r == Ok(FindByEmail(users, n, email).value) && r.value in users && users[r.value].email == EmailKey(email)
    ensures r.Ok? ==> matches(password, users[r.value].passwordHash) && users[r.value].isActive
  {
    var found := FindByEmail(users, n, email);
    if found.None? then Err(Unauthorized)
    else if !matches(password, users[found.value].passwordHash) then Err(Unauthorized)
    else if !users[found.value].isActive then Err(Forbidden)
    else Ok(found.value)
  }

  /** A login's answer: a token for the account, or a request for its two-factor code. */
  datatype LoginReply = Token(user: Id) | Requires2FA(user: Id)

  /** Stores a fresh code that expires ten minutes after `now`. */
  function Issue(u: User, code: string, now: int): (r: User)
    ensures r.twoFactorCode == Some(code) && r.twoFactorExpires == Some(now + TenMinutesMs)
    ensures r.(twoFactorCode := u.twoFactorCode, twoFactorExpires := u.twoFactorExpires) == u
  {
    u.(twoFactorCode := Some(code), twoFactorExpires := Some(now + TenMinutesMs))
  }

  /**
   * `login`: past the gate, an account with two-factor on gets a fresh
   * code and no token; any other gets its token at once.
   */
  method Login(db: Db, email: string, password: string, matches: (string, string) -> bool, code: string, now: int)
    returns (r: Result<LoginReply>)
    requires db.Valid()
    modifies db`users
    ensures db.Valid()
    ensures Authenticate(old(db.users), db.nextId, email, password, matches).Err? ==>
      r == Err(Authenticate(old(db.users), db.nextId, email, password, matches).error) && db.users == old(db.users)
    ensures Authenticate(old(db.users), db.nextId, email, password, matches).Ok? ==>
      var id := Authenticate(old(db.users), db.nextId, email, password, matches).value;
      if old(db.users)[id].twoFactorEnabled then
        r == Ok(Requires2FA(id)) && db.users == old(db.users)[id := Issue(old(db.users)[id], code, now)]
      else
        r == Ok(Token(id)) && db.users == old(db.users)
  {
    var gate := Authenticate(db.users, db.nextId, email, password, matches);
    if gate.Err? {
      return Err(gate.error);
    }
    var id := gate.value;
    var u := db.users[id];
    if u.twoFactorEnabled {
      db.PutUser(id, Issue(u, code, now));
      return Ok(Requires2FA(id));
    }
    r := Ok(Token(id));
  }

  // ----------------------------------------------------------- two-factor

  /** The outcome of checking a submitted code, in the source's order. */
  datatype Verdict = Verified(user: User) | WrongCode | Expired

  /**
   * `verify2FA`'s checks: the submitted code must equal the stored one,
   * compared before the expiry (so an absent code matches an absent one),
   * and an expiry that is present must not lie before `now`. Success
   * clears both.
   */
  function Check2FA(u: User, code: Option<string>, now: int): (r: Verdict)
    ensures r == WrongCode <==> u.twoFactorCode != code
    ensures r == Expired <==> u.twoFactorCode == code && u.twoFactorExpires.Some? && u.twoFactorExpires.value < now
    ensures r.Verified? ==> r.user.twoFactorCode.None? && r.user.twoFactorExpires.None?
    ensures r.Verified? ==> r.user.(twoFactorCode := u.twoFactorCode, twoFactorExpires := u.twoFactorExpires) == u
  {
    if u.twoFactorCode != code then WrongCode
    else if u.twoFactorExpires.Some? && u.twoFactorExpires.value < now then Expired
    else Verified(u.(twoFactorCode := None, twoFactorExpires := None))
  }

  /** A code issued at `t` verifies exactly until ten minutes later; any other code is wrong. */
  lemma IssuedCodeWindow(u: User, code: string, t: int, now: int, other: Option<string>)
    ensures Check2FA(Issue(u, code, t), Some(code), now).Verified? <==> now <= t + TenMinutesMs
    ensures other != Some(code) ==> Check2FA(Issue(u, code, t), other, now) == WrongCode
  {
  }

  /** A code works once: after it verifies, submitting it again is wrong. */
  lemma CodeWorksOnce(u: User, code: string, now: int, later: int)
    requires Check2FA(u, Some(code), now).Verified?
    ensures Check2FA(Check2FA(u, Some(code), now).user, Some(code), later) == WrongCode
  {
  }

  /** With no pending code, a request without a code passes, whatever the time. */
  lemma NoPendingCodePasses(u: User, now: int)
    requires u.twoFactorCode.None? && u.twoFactorExpires.None?
    ensures Check2FA(u, None, now).Verified?
  {
  }

  /** Resending replaces the code and restarts the window: only the latest code counts. */
  lemma ResendReplaces(u: User, first: string, t1: int, second: string, t2: int, now: int)
    ensures Issue(Issue(u, first, t1), second, t2) == Issue(u, second, t2)
    ensures first != second ==> Check2FA(Issue(Issue(u, first, t1), second, t2), Some(first), now) == WrongCode
  {
  }

  /** `verify2FA`: 404 for an unknown account, 401 for a wrong or expired code; success clears the code. */
  method Verify2FA(db: Db, userId: Id, code: Option<string>, now: int) returns (r: Result<Id>)
    requires db.Valid()
    modifies db`users
    ensures db.Valid()
    ensures userId !in old(db.users) ==> r == Err(NotFound)
    ensures userId in old(db.users) && !Check2FA(old(db.users)[userId], code, now).Verified? ==> r == Err(Unauthorized)
    ensures r.Err? ==> db.users == old(db.users)
    ensures r.Ok? ==> r.value == userId && userId in old(db.users) && Check2FA(old(db.users)[userId], code, now).Verified?
    ensures r.Ok? ==> db.users == old(db.users)[userId := Check2FA(old(db.users)[userId], code, now).user]
  {
    if userId !in db.users {
      return Err(NotFound);
    }
    var v := Check2FA(db.users[userId], code, now);
    if !v.Verified? {
      return Err(Unauthorized);
    }
    db.PutUser(userId, v.user);
    r := Ok(userId);
  }

  /**
   * The check `verify2FA` evidently intends: a code is accepted only while
   * one is pending, so that an account nobody asked a code of cannot be
   * signed in with its id alone.
   */
  function Check2FACorrected(u: User, code: Option<string>, now: int): (r: Verdict)
    ensures r == WrongCode <==> u.twoFactorCode.None? || u.twoFactorCode != code
    ensures r == Expired <==> u.twoFactorCode.Some? && u.twoFactorCode == code && u.twoFactorExpires.Some? && u.twoFactorExpires.value < now
    ensures r.Verified? ==> code.Some? && u.twoFactorCode == code
    ensures r.Verified? ==> r.user.twoFactorCode.None? && r.user.twoFactorExpires.None?
    ensures r.Verified? ==> r.user.(twoFactorCode := u.twoFactorCode, twoFactorExpires := u.twoFactorExpires) == u
  {
    if u.twoFactorCode.None? then WrongCode
    else Check2FA(u, code, now)
  }

  /** Without a pending code every request is refused, where the check as written lets a codeless one through. */
  lemma NoPendingCodeRefused(u: User, code: Option<string>, now: int)
    requires u.twoFactorCode.None? && u.twoFactorExpires.None?
    ensures Check2FACorrected(u, code, now) == WrongCode
    ensures Check2FA(u, None, now).Verified?
  {
    NoPendingCodePasses(u, now);
  }

  /** While a code is pending, the corrected check and the check as written agree. */
  lemma CorrectedAgreesWhenPending(u: User, code: Option<string>, now: int)
    requires u.twoFactorCode.Some?
    ensures Check2FACorrected(u, code, now) == Check2FA(u, code, now)
  {
  }

  /** `verify2FA` with the corrected check: a token is issued only for the code pending on that account. */
  method Verify2FACorrected(db: Db, userId: Id, code: Option<string>, now: int) returns (r: Result<Id>)
    requires db.Valid()
    modifies db`users
    ensures db.Valid()
    ensures userId !in old(db.users) ==> r == Err(NotFound)
    ensures userId in old(db.users) && !Check2FACorrected(old(db.users)[userId], code, now).Verified? ==> r == Err(Unauthorized)
    ensures r.Err? ==> db.users == old(db.users)
    ensures r.Ok? ==> r.value == userId && userId in old(db.users) && code.Some? && old(db.users)[userId].twoFactorCode == code
    ensures r.Ok? ==> db.users == old(db.users)[userId := Check2FACorrected(old(db.users)[userId], code, now).user]
  {
    if userId !in db.users {
      return Err(NotFound);
    }
    var v := Check2FACorrected(db.users[userId], code, now);
    if !v.Verified? {
      return Err(Unauthorized);
    }
    db.PutUser(userId, v.user);
    r := Ok(userId);
  }

  /** `resend2FACode`: 404 for an unknown account; otherwise a fresh code and window. */
  method Resend2FACode(db: Db, userId: Id, code: string, now: int) returns (r: Result<Id>)
    requires db.Valid()
    modifies db`users
    ensures db.Valid()
    ensures userId !in old(db.users) ==> r == Err(NotFound) && db.users == old(db.users)
    ensures userId in old(db.users) ==> r == Ok(userId) && db.users == old(db.users)[userId := Issue(old(db.users)[userId], code, now)]
  {
    if userId !in db.users {
      return Err(NotFound);
    }
    db.PutUser(userId, Issue(db.users[userId], code, now));
    r := Ok(userId);
  }

  /** `toggle2FA`: flips the caller's flag and reports the new value; a missing caller account is a server error. */
  method Toggle2FA(db: Db, caller: Actor) returns (r: Result<bool>)
    requires db.Valid()
    modifies db`users
    ensures db.Valid()
    ensures caller.id !in old(db.users) ==> r == Err(InternalError) && db.users == old(db.users)
    ensures caller.id in old(db.users) ==>
      r == Ok(!old(db.users)[caller.id].twoFactorEnabled) &&
      db.users == old(db.users)[caller.id := old(db.users)[caller.id].(twoFactorEnabled := !old(db.users)[caller.id].twoFactorEnabled)]
  {
    if caller.id !in db.users {
      return Err(InternalError);
    }
    var u := db.users[caller.id];
    db.PutUser(caller.id, u.(twoFactorEnabled := !u.twoFactorEnabled));
    r := Ok(!u.twoFactorEnabled);
  }

  // -------------------------------------------------------------- profile

  /** The body of `PUT /auth/profile`; an empty string is absent. */
  datatype ProfileBody = ProfileBody(name: string, phone: string, address: string, password: string)

  /**
   * `updateProfile`'s changes: name, phone and address take the new value,
   * trimmed by the schema's setter, only when it is non-empty; a non-empty
   * password is re-hashed. Nothing else moves.
   */
  function ApplyProfile(u: User, b: ProfileBody, hash: string -> string): (r: User)
    ensures b.name != "" ==> r.name == Trim(b.name)
    ensures b.name == "" ==> r.name == u.name
    ensures b.phone != "" ==> r.phone == Trim(b.phone)
    ensures b.phone == "" ==> r.phone == u.phone
    ensures b.address != "" ==> r.address == Trim(b.address)
    ensures b.address == "" ==> r.address == u.address
    ensures r.passwordHash == if b.password != "" then hash(b.password) else u.passwordHash
    ensures r.(name := u.name, phone := u.phone, address := u.address, passwordHash := u.passwordHash) == u
  {
    u.(name := if b.name != "" then Trim(b.name) else u.name,
       phone := if b.phone != "" then Trim(b.phone) else u.phone,
       address := if b.address != "" then Trim(b.address) else u.address,
       passwordHash := if b.password != "" then hash(b.password) else u.passwordHash)
  }

  /**
   * An empty field never clears the stored value, but one of white space
   * only does: it is truthy, so it is assigned, and the setter trims it to
   * the empty string.
   */
  lemma ProfileCannotClear(u: User, b: ProfileBody, hash: string -> string)
    ensures u.name != "" && !IsBlank(b.name) ==> ApplyProfile(u, b, hash).name != ""
    ensures u.phone != "" && !IsBlank(b.phone) ==> ApplyProfile(u, b, hash).phone != ""
    ensures u.address != "" && !IsBlank(b.address) ==> ApplyProfile(u, b, hash).address != ""
    ensures b.phone != "" && IsBlank(b.phone) ==> ApplyProfile(u, b, hash).phone == ""
    ensures b.address != "" && IsBlank(b.address) ==> ApplyProfile(u, b, hash).address == ""
  {
    if b.name == "" { assert IsBlank(b.name) by { assert Trim(b.name) == ""; } }
    if b.phone == "" { assert IsBlank(b.phone) by { assert Trim(b.phone) == ""; } }
    if b.address == "" { assert IsBlank(b.address) by { assert Trim(b.address) == ""; } }
  }

  /** `updateProfile`: the caller's own account, 404 when it is gone. */
  method UpdateProfile(db: Db, caller: Actor, b: ProfileBody, hash: string -> string) returns (r: Result<Id>)
    requires db.Valid()
    modifies db`users
    ensures db.Valid()
    ensures caller.id !in old(db.users) ==> r == Err(NotFound) && db.users == old(db.users)
    ensures caller.id in old(db.users) ==>
      r == Ok(caller.id) && db.users == old(db.users)[caller.id := ApplyProfile(old(db.users)[caller.id], b, hash)]
  {
    if caller.id !in db.users {
      return Err(NotFound);
    }
    db.PutUser(caller.id, ApplyProfile(db.users[caller.id], b, hash));
    r := Ok(caller.id);
  }

  // -------------------------------------------------------------- listing

  predicate NameLe(a: (Id, User), b: (Id, User))
  {
    StrLe(a.1.name, b.1.name)
  }

  lemma NameLeIsTotalPreorder()
    ensures TotalPreorder(NameLe)
  {
    forall a, b ensures NameLe(a, b) || NameLe(b, a) {
      StrLeTotal(a.1.name, b.1.name);
    }
    forall a, b, c | NameLe(a, b) && NameLe(b, c) ensures NameLe(a, c) {
      StrLeTransitive(a.1.name, b.1.name, c.1.name);
    }
  }

  /** `getDoctors`: every doctor account, active or not, by name. */
  function GetDoctors(users: map<Id, User>, n: nat): (r: seq<(Id, User)>)
    ensures forall e :: e in r <==> e.0 in users && e.0 < n && users[e.0] == e.1 && e.1.role == Doctor
    ensures SortedBy(r, NameLe)
  {
    var doctors: seq<(Id, User)> := Filter(Entries(users, n), (e: (Id, User)) => e.1.role == Doctor);
    NameLeIsTotalPreorder();
    SortBySorted(doctors, NameLe);
    assert forall e :: e in SortBy(doctors, NameLe) <==> e in doctors by {
      forall e ensures e in SortBy(doctors, NameLe) <==> e in doctors { SortByMembers(doctors, NameLe, e); }
    }
    SortBy(doctors, NameLe)
  }

  /** `getAllUsers` (admin): every account, newest (highest id) first. */
  function GetAllUsers(users: map<Id, User>, n: nat, caller: Actor): (r: seq<(Id, User)>)
    requires caller.role == Admin
    ensures forall e :: e in r <==> e.0 in users && e.0 < n && users[e.0] == e.1
    ensures forall i, j :: 0 <= i < j < |r| ==> r[i].0 > r[j].0
  {
    ReverseMembers(Entries(users, n));
    EntriesKeys(users, n);
    Reverse(Entries(users, n))
  }

  // ------------------------------------------------------ user management

  /**
   * `updateUser`'s changes: an admin may not change their own role (400);
   * a role outside the enum fails validation (500); an empty role keeps the
   * current one, and the active flag moves only when a boolean was sent.
   */
  function ApplyUserUpdate(u: User, isSelf: bool, role: string, isActive: Option<bool>): (r: Result<User>)
    ensures r == Err(BadRequest) <==> isSelf && role != "" && role != RoleName(u.role)
    ensures r == Err(InternalError) <==> !(isSelf && role != "" && role != RoleName(u.role)) && role != "" && ParseRole(role).None?
    ensures r.Ok? && isSelf ==> r.value.role == u.role
    ensures r.Ok? ==> r.value.role == (if role == "" then u.role else ParseRole(role).value)
    ensures r.Ok? ==> r.value.isActive == (if isActive.Some? then isActive.value else u.isActive)
    ensures r.Ok? ==> r.value.(role := u.role, isActive := u.isActive) == u
  {
    if isSelf && role != "" && role != RoleName(u.role) then Err(BadRequest)
    else if role != "" && ParseRole(role).None? then Err(InternalError)
    else
      var newRole := if role == "" then u.role else ParseRole(role).value;
      Ok(u.(role := newRole, isActive := Pick(isActive, u.isActive)))
  }

  /** `updateUser` (admin): 404 for an unknown account, else `ApplyUserUpdate` saved. */
  method UpdateUser(db: Db, caller: Actor, id: Id, role: string, isActive: Option<bool>) returns (r: Result<Id>)
    requires db.Valid() && caller.role == Admin
    modifies db`users
    ensures db.Valid()
    ensures id !in old(db.users) ==> r == Err(NotFound)
    ensures id in old(db.users) && ApplyUserUpdate(old(db.users)[id], id == caller.id, role, isActive).Err? ==>
      r == Err(ApplyUserUpdate(old(db.users)[id], id == caller.id, role, isActive).error)
    ensures r.Err? ==> db.users == old(db.users)
    ensures r.Ok? ==> r.value == id && id in old(db.users) && ApplyUserUpdate(old(db.users)[id], id == caller.id, role, isActive).Ok?
    ensures r.Ok? ==> db.users == old(db.users)[id := ApplyUserUpdate(old(db.users)[id], id == caller.id, role, isActive).value]
  {
    if id !in db.users {
      return Err(NotFound);
    }
    var u := ApplyUserUpdate(db.users[id], id == caller.id, role, isActive);
    if u.Err? {
      return Err(u.error);
    }
    db.PutUser(id, u.value);
    r := Ok(id);
  }

  /** `toggleUserActive` (admin): 404 for an unknown account, 400 on oneself, otherwise the flag flips. */
  method ToggleUserActive(db: Db, caller: Actor, id: Id) returns (r: Result<bool>)
    requires db.Valid() && caller.role == Admin
    modifies db`users
    ensures db.Valid()
    ensures id !in old(db.users) ==> r == Err(NotFound)
    ensures id in old(db.users) && id == caller.id ==> r == Err(BadRequest)
    ensures r.Err? ==> db.users == old(db.users)
    ensures r.Ok? ==> id in old(db.users) && id != caller.id && r.value == !old(db.users)[id].isActive
    ensures r.Ok? ==> db.users == old(db.users)[id := old(db.users)[id].(isActive := !old(db.users)[id].isActive)]
  {
    if id !in db.users {
      return Err(NotFound);
    }
    if id == caller.id {
      return Err(BadRequest);
    }
    var u := db.users[id];
    db.PutUser(id, u.(isActive := !u.isActive));
    r := Ok(!u.isActive);
  }
}
