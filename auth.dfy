/**
 * Signup and login (routes/auth.js). Password hashing, comparison and signing are parameters.
 */
module Auth {
  import opened Basics
  import opened Seqs
  import opened Accounts
  import opened Tokens

  datatype SignupReply =
    | SignedUp        // 201 'Signup successfull'
    | AlreadyExists   // 400 'User Already exists'
    | SaveFailed      // 500 'Failed to save user'

  /** The user `signup` stores. */
  function NewUser(id: Id, name: string, email: string, phone: Option<string>, hashed: string, now: int): (u: User)
    ensures u.id == id && u.name == name && u.email == email && u.phone == phone
    ensures u.password == Some(hashed)
    ensures u.createdAt == now && u.updatedAt == Some(now)
  {
    User(id, name, email, phone, Some(hashed), None, now, None, Some(now), None)
  }

  /**
   * `signup`: refused when the email is taken by a user or an admin; failing when the
   * password is missing (hashing throws) or a required field is empty (the save is refused);
   * otherwise exactly one user is added, holding the hash of the password.
   */
  method Signup(store: UserCollection, password: Option<string>, name: string, email: string,
                phone: Option<string>, now: int, hash: string -> string)
    returns (reply: SignupReply)
    requires store.Valid()
    modifies store
    ensures store.Valid()
    ensures store.admins == old(store.admins)
    ensures reply == AlreadyExists <==>
      UserHasEmail(old(store.users), email) || AdminHasEmail(old(store.admins), email)
    ensures reply == SaveFailed <==>
      !UserHasEmail(old(store.users), email) && !AdminHasEmail(old(store.admins), email) &&
      (password.None? || name == "" || email == "")
    ensures reply != SignedUp ==> store.users == old(store.users) && store.nextId == old(store.nextId)
    ensures reply == SignedUp ==>
      store.users == old(store.users) + [NewUser(old(store.nextId), name, email, phone, hash(password.value), now)]
  {
    if UserHasEmail(store.users, email) || AdminHasEmail(store.admins, email) {
      return AlreadyExists;
    }
    if password.None? || name == "" || email == "" {
      return SaveFailed;
    }
    var user := NewUser(store.nextId, name, email, phone, hash(password.value), now);
    store.users := store.users + [user];
    store.nextId := store.nextId + 1;
    reply := SignedUp;
  }

  /**
   * Two signups with one email, one after the other: once the first has stored a user, the
   * second is refused with 'User Already exists' and leaves the store as the first left it.
   */
  method SignupTwice(store: UserCollection, password: Option<string>, name: string, email: string,
                     phone: Option<string>, now: int, later: int, hash: string -> string)
    returns (first: SignupReply, second: SignupReply)
    requires store.Valid()
    modifies store
    ensures store.Valid()
    ensures first == SignedUp ==> second == AlreadyExists
    ensures first == SignedUp ==>
      && password.Some?
      && store.users == old(store.users) + [NewUser(old(store.nextId), name, email, phone, hash(password.value), now)]
    ensures first == AlreadyExists ==> second == AlreadyExists && store.users == old(store.users)
  {
    first := Signup(store, password, name, email, phone, now, hash);
    if first == SignedUp {
      assert store.users[|store.users| - 1].email == email;
    }
    second := Signup(store, password, name, email, phone, later, hash);
  }

  /** The fields of a user or admin record that login reads. */
  datatype Account = Account(id: Id, email: string, password: Option<string>)

  datatype LoginReply =
    | LoggedIn(token: string)   // 200 with the token
    | UserNotFound              // 400 'User not found'
    | PasswordMismatch          // 400 'Password does not match'
    | InternalError             // 500 'Internal server error'

  const LoginLifetime: string := "5d"

  /** The collection `userRole` names, if it names one. */
  function AccountsOf(users: seq<User>, admins: seq<Admin>, userRole: string): (r: Option<seq<Account>>)
    ensures r.Some? <==> userRole == "user" || userRole == "admin"
    ensures userRole == "user" ==> |r.value| == |users| && forall i :: 0 <= i < |users| ==>
      r.value[i] == Account(users[i].id, users[i].email, users[i].password)
    ensures userRole == "admin" ==> |r.value| == |admins| && forall i :: 0 <= i < |admins| ==>
      r.value[i] == Account(admins[i].id, admins[i].email, admins[i].password)
  {
    if userRole == "user" then
      Some(seq(|users|, i requires 0 <= i < |users| => Account(users[i].id, users[i].email, users[i].password)))
    else if userRole == "admin" then
      Some(seq(|admins|, i requires 0 <= i < |admins| => Account(admins[i].id, admins[i].email, admins[i].password)))
    else None
  }

  function HasEmail(email: string): Account -> bool {
    (a: Account) => a.email == email
  }

  /** `i` is the first account with `email`, the one `findOne` returns. */
  ghost predicate FirstWithEmail(accounts: seq<Account>, email: string, i: int) {
    0 <= i < |accounts| && accounts[i].email == email && forall j :: 0 <= j < i ==> accounts[j].email != email
  }

  /** At most one index is the first with a given email. */
  lemma FirstWithEmailUnique(accounts: seq<Account>, email: string, i: int)
    requires FirstWithEmail(accounts, email, i)
    ensures forall j :: FirstWithEmail(accounts, email, j) ==> j == i
  {
  }

  /**
   * `login` on the collection of `userRole`: not found when no record has the email; a
   * mismatch when the password does not compare equal to the stored hash; a token carrying
   * the record's id, the email and the role otherwise. An unknown role, a missing password on
   * either side and a signing failure are internal errors.
   */
  function Login(users: seq<User>, admins: seq<Admin>, email: string, password: Option<string>,
                 userRole: string, compare: (string, string) -> bool, sign: Signer): (r: LoginReply)
    ensures AccountsOf(users, admins, userRole).None? ==> r == InternalError
    ensures AccountsOf(users, admins, userRole).Some? ==>
      var accounts := AccountsOf(users, admins, userRole).value;
      && (r == UserNotFound <==> forall i :: 0 <= i < |accounts| ==> accounts[i].email != email)
      && (r == PasswordMismatch ==>
            exists i :: FirstWithEmail(accounts, email, i) && password.Some? && accounts[i].password.Some? &&
              !compare(password.value, accounts[i].password.value))
      && (r.LoggedIn? ==>
            exists i :: FirstWithEmail(accounts, email, i) && password.Some? && accounts[i].password.Some? &&
              compare(password.value, accounts[i].password.value) &&
              sign(LoginClaims(accounts[i].id, email, userRole), LoginLifetime) == Some(r.token))
    ensures AccountsOf(users, admins, userRole).Some? ==>
      var accounts := AccountsOf(users, admins, userRole).value;
      forall i :: FirstWithEmail(accounts, email, i) ==>
        && (password.None? || accounts[i].password.None? ==> r == InternalError)
        && (password.Some? && accounts[i].password.Some? ==>
              (r == PasswordMismatch <==> !compare(password.value, accounts[i].password.value)))
        && (password.Some? && accounts[i].password.Some? && compare(password.value, accounts[i].password.value) ==>
              (r.LoggedIn? <==> sign(LoginClaims(accounts[i].id, email, userRole), LoginLifetime).Some?))
  {
    match AccountsOf(users, admins, userRole)
    case None => InternalError
    case Some(accounts) =>
      match FirstIndex(accounts, HasEmail(email))
      case None => UserNotFound
      case Some(i) =>
        assert FirstWithEmail(accounts, email, i);
        FirstWithEmailUnique(accounts, email, i);
        if password.None? || accounts[i].password.None? then InternalError
        else if !compare(password.value, accounts[i].password.value) then PasswordMismatch
        else match sign(LoginClaims(accounts[i].id, email, userRole), LoginLifetime)
          case None => InternalError
          case Some(token) => LoggedIn(token)
  }

  /**
   * A user who has just signed up can log in with the same password, provided the comparison
   * accepts a password against its own hash and signing succeeds.
   */
  lemma SignupThenLogin(users: seq<User>, admins: seq<Admin>, user: User, password: string,
                        hash: string -> string, compare: (string, string) -> bool, sign: Signer)
    requires !UserHasEmail(users, user.email)
    requires user.password == Some(hash(password))
    requires compare(password, hash(password))
    requires sign(LoginClaims(user.id, user.email, "user"), LoginLifetime).Some?
    ensures Login(users + [user], admins, user.email, Some(password), "user", compare, sign).LoggedIn?
  {
    var all := users + [user];
    var accounts := AccountsOf(all, admins, "user").value;
    var n := |users|;
    assert all[n] == user;
    forall j | 0 <= j < n ensures accounts[j].email != user.email {
      assert all[j] == users[j];
    }
    assert FirstIndex(accounts, HasEmail(user.email)) == Some(n);
  }
}
