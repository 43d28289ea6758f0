/** The account service: each call is one lookup in the user collection followed,
    for the calls that change something, by one in-place edit of the found
    document and one save. Here every call is a function from the collection
    before the call to its result and the collection after it; the store class
    in the Backend module performs the same steps imperatively. */
module Accounts {
  import opened Wrappers
  import opened Errors
  import opened Users

  /** What a call returns and what the user collection holds afterwards. */
  datatype Step<T> = Step(result: Result<T, Error>, users: seq<Record>)

  /** signup: rejects a taken username, and only a taken username; a taken email
      merely changes the message. Otherwise `userData` is stored verbatim as a
      new document at the end. */
  function Signup(users: seq<Record>, userData: Record): (s: Step<Account>)
    requires Username in userData && Email in userData
    ensures s.result.Failure? <==> Taken(users, Username, userData[Username])
    ensures s.result.Failure? ==>
      && s.users == users
      && s.result.error == (if Taken(users, Email, userData[Email]) then UserAlreadyRegistered else UsernameTaken)
    ensures s.result.Success? ==>
      && s.users == users + [userData]
      && s.result.value == Account(|users|, userData)
  {
    var foundUsername := FindOne(users, Username, userData[Username]);
    var foundEmail := FindOne(users, Email, userData[Email]);
    if foundUsername.Some? && foundEmail.Some? then Step(Failure(UserAlreadyRegistered), users)
    else if foundUsername.Some? then Step(Failure(UsernameTaken), users)
    else Step(Success(Account(|users|, userData)), users + [userData])
  }

  /** login: decided by the first document with that email, by exact equality of
      its stored password. */
  function Login(users: seq<Record>, email: string, password: string): (r: Result<Account, Error>)
    ensures !Taken(users, Email, email) ==> r == Failure(UserNotFound)
    ensures r.Success? <==>
      exists j :: IsFirst(users, Email, email, j) && HasValue(users[j], Password, password)
    ensures forall j :: IsFirst(users, Email, email, j) ==>
      r == (if HasValue(users[j], Password, password) then Success(Account(j, users[j]))
            else Failure(IncorrectPassword))
  {
    match FindOne(users, Email, email)
    case None => Failure(UserNotFound)
    case Some(j) =>
      if HasValue(users[j], Password, password) then Success(Account(j, users[j]))
      else Failure(IncorrectPassword)
  }

  /** changePassword: the same checks as login; on success only the `password`
      field of that one document changes. */
  function ChangePassword(users: seq<Record>, email: string, currentPassword: string, newPassword: string)
    : (s: Step<Account>)
    ensures !Taken(users, Email, email) ==> s == Step(Failure(UserNotFound), users)
    ensures s.result.Failure? ==> s.users == users
    ensures s.result.Success? <==> Login(users, email, currentPassword).Success?
    ensures forall j :: IsFirst(users, Email, email, j) ==>
      if HasValue(users[j], Password, currentPassword) then
        && s.users == users[j := users[j][Password := newPassword]]
        && s.result == Success(Account(j, s.users[j]))
      else s == Step(Failure(IncorrectPassword), users)
  {
    match FindOne(users, Email, email)
    case None => Step(Failure(UserNotFound), users)
    case Some(j) =>
      if HasValue(users[j], Password, currentPassword) then
        var user := users[j][Password := newPassword];
        Step(Success(Account(j, user)), users[j := user])
      else Step(Failure(IncorrectPassword), users)
  }

  /** updateProfilePicture: there is no check that a user was found, so a missing
      email ends in the runtime's error for an assignment on null; nothing is saved. */
  function UpdateProfilePicture(users: seq<Record>, email: string, newProfilePictureUrl: string)
    : (s: Step<Account>)
    ensures !Taken(users, Email, email) ==> s == Step(Failure(NullUser), users)
    ensures forall j :: IsFirst(users, Email, email, j) ==>
      && s.users == users[j := users[j][ProfilePictureUrl := newProfilePictureUrl]]
      && s.result == Success(Account(j, s.users[j]))
  {
    match FindOne(users, Email, email)
    case None => Step(Failure(NullUser), users)
    case Some(j) =>
      var user := users[j][ProfilePictureUrl := newProfilePictureUrl];
      Step(Success(Account(j, user)), users[j := user])
  }

  /** updateContactDetails: `Object.assign(user, patch)` then save. Every field of
      the patch takes the patch's value; every other field keeps its value; no
      other document changes. */
  function UpdateContactDetails(users: seq<Record>, email: string, patch: Record): (s: Step<Account>)
    ensures !Taken(users, Email, email) ==> s == Step(Failure(EmailNotFound), users)
    ensures forall j :: IsFirst(users, Email, email, j) ==>
      && |s.users| == |users|
      && (forall k :: 0 <= k < |users| && k != j ==> s.users[k] == users[k])
      && s.users[j].Keys == users[j].Keys + patch.Keys
      && (forall f :: f in patch ==> s.users[j][f] == patch[f])
      && (forall f :: f in users[j] && f !in patch ==> s.users[j][f] == users[j][f])
      && s.result == Success(Account(j, s.users[j]))
  {
    match FindOne(users, Email, email)
    case None => Step(Failure(EmailNotFound), users)
    case Some(j) =>
      var user := users[j] + patch;
      Step(Success(Account(j, user)), users[j := user])
  }

  /** findUserByPhoneNumber: the first document whose `phoneNumber` is exactly the given one. */
  function FindUserByPhoneNumber(users: seq<Record>, phoneNumber: string): (r: Result<Account, Error>)
    ensures r.Failure? <==> !Taken(users, PhoneNumber, phoneNumber)
    ensures r.Failure? ==> r.error == PhoneNotFound
    ensures r.Success? ==>
      && IsFirst(users, PhoneNumber, phoneNumber, r.value.id)
      && r.value.fields == users[r.value.id]
  {
    match FindOne(users, PhoneNumber, phoneNumber)
    case None => Failure(PhoneNotFound)
    case Some(j) => Success(Account(j, users[j]))
  }

  /** After a successful password change the new password logs in, and the old one
      no longer does unless it equals the new one. */
  lemma ChangePasswordThenLogin(users: seq<Record>, email: string, currentPassword: string, newPassword: string)
    requires ChangePassword(users, email, currentPassword, newPassword).result.Success?
    ensures var s := ChangePassword(users, email, currentPassword, newPassword);
      && Login(s.users, email, newPassword) == Success(s.result.value)
      && (currentPassword != newPassword ==> Login(s.users, email, currentPassword) == Failure(IncorrectPassword))
  {
    var s := ChangePassword(users, email, currentPassword, newPassword);
    var j := FindOne(users, Email, email).value;
    ReplaceKeepsFirst(users, Email, email, j, users[j][Password := newPassword]);
  }

  /** A new account whose email nobody else uses can log in with its own password. */
  lemma SignupThenLogin(users: seq<Record>, userData: Record)
    requires Username in userData && Email in userData && Password in userData
    requires !Taken(users, Username, userData[Username])
    requires !Taken(users, Email, userData[Email])
    ensures var s := Signup(users, userData);
      Login(s.users, userData[Email], userData[Password]) == Success(Account(|users|, userData))
  {
    var s := Signup(users, userData);
    assert IsFirst(s.users, Email, userData[Email], |users|) by {
      forall k | 0 <= k < |users|
        ensures !HasValue(s.users[k], Email, userData[Email])
      {
        assert s.users[k] == users[k];
      }
    }
  }

  /** Signup lets an existing email through, but the new account cannot log in:
      login keeps answering from the older document with that email. */
  lemma SignupSharedEmailShadowed(users: seq<Record>, userData: Record, password: string)
    requires Username in userData && Email in userData
    requires !Taken(users, Username, userData[Username])
    requires Taken(users, Email, userData[Email])
    ensures var s := Signup(users, userData);
      && s.result.Success?
      && Login(s.users, userData[Email], password) == Login(users, userData[Email], password)
  {
    var s := Signup(users, userData);
    var j := FindOne(users, Email, userData[Email]).value;
    assert IsFirst(s.users, Email, userData[Email], j) by {
      forall k | 0 <= k <= j
        ensures s.users[k] == users[k]
      {
      }
    }
  }

  /** After a contact update that sets a phone number, a lookup by that number
      finds a user. */
  lemma UpdateContactThenFindByPhone(users: seq<Record>, email: string, patch: Record)
    requires Taken(users, Email, email)
    requires PhoneNumber in patch
    ensures var s := UpdateContactDetails(users, email, patch);
      FindUserByPhoneNumber(s.users, patch[PhoneNumber]).Success?
  {
    var s := UpdateContactDetails(users, email, patch);
    var j := FindOne(users, Email, email).value;
    assert HasValue(s.users[j], PhoneNumber, patch[PhoneNumber]);
  }
}
