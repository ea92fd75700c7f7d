/**
 * The profile edit route (routes/user.js): validate the three fields, update the one user in
 * place, and answer with a fresh profile token.
 */
module Profile {
  import opened Basics
  import opened Seqs
  import opened Accounts
  import opened Tokens

  datatype EditReply =
    | Updated(token: string)   // 200 'User updated successfully'
    | MissingFields            // 400 'Name, email, and phone are required'
    | UserNotFound             // 404 'User not found'
    | InternalError            // 500 'Internal server error'

  /** The record after the `$set` of the new name, email and phone and the update time. */
  function Edited(u: User, name: string, email: string, phone: string, now: int): (r: User)
    ensures r.name == name && r.email == email && r.phone == Some(phone) && r.updatedAt == Some(now)
    ensures r.id == u.id && r.password == u.password && r.dpUrl == u.dpUrl && r.createdAt == u.createdAt
    ensures r.isGoogleLogin == u.isGoogleLogin && r.isAppliedForVendor == u.isAppliedForVendor
  {
    u.(name := name, email := email, phone := Some(phone), updatedAt := Some(now))
  }

  /** What `generateJWT` reads from a user record. */
  function SubjectOf(u: User): Subject {
    Subject(u.id, Some(u.name), u.dpUrl, Some(u.email), u.phone, u.isAppliedForVendor, None, None)
  }

  /** The users after `findByIdAndUpdate`: the user with `userId` edited, every other one unchanged. */
  function EditUsers(users: seq<User>, userId: Id, name: string, email: string, phone: string, now: int)
    : (r: seq<User>)
    ensures |r| == |users|
    ensures forall i :: 0 <= i < |users| ==>
      r[i] == if users[i].id == userId then Edited(users[i], name, email, phone, now) else users[i]
  {
    if users == [] then []
    else
      var u := users[0];
      [if u.id == userId then Edited(u, name, email, phone, now) else u] +
      EditUsers(users[1..], userId, name, email, phone, now)
  }

  /** Another user than the one with `userId` already has `email`: the unique index refuses the update. */
  predicate EmailTakenByOther(users: seq<User>, userId: Id, email: string) {
    exists j :: 0 <= j < |users| && users[j].id != userId && users[j].email == email
  }

  /**
   * `edit-profile/:userId`. A missing field is refused and an unknown id is not found, both
   * without change; an email held by another user fails without change; otherwise only that
   * user's name, email, phone and update time change, and the reply carries a token built from
   * the updated record with role 'user'. A signing failure is an internal error after the
   * update has been stored.
   */
  method EditProfile(store: UserCollection, userId: Id, name: string, email: string, phone: string,
                     now: int, sign: Signer)
    returns (reply: EditReply)
    requires store.Valid()
    modifies store
    ensures store.Valid()
    ensures store.admins == old(store.admins) && store.nextId == old(store.nextId)
    ensures reply == MissingFields <==> name == "" || email == "" || phone == ""
    ensures reply == UserNotFound <==>
      name != "" && email != "" && phone != "" &&
      forall i :: 0 <= i < |old(store.users)| ==> old(store.users)[i].id != userId
    ensures reply.MissingFields? || reply.UserNotFound? || EmailTakenByOther(old(store.users), userId, email) ==>
      store.users == old(store.users)
    ensures reply.Updated? || (reply.InternalError? && !EmailTakenByOther(old(store.users), userId, email)) ==>
      store.users == EditUsers(old(store.users), userId, name, email, phone, now)
    ensures reply.Updated? ==>
      exists i :: 0 <= i < |store.users| && store.users[i].id == userId &&
        GenerateJwt(SubjectOf(store.users[i]), Some("user"), sign) == Ok(reply.token)
    ensures EmailTakenByOther(old(store.users), userId, email) ==>
      reply == MissingFields || reply == UserNotFound || reply == InternalError
    ensures name != "" && email != "" && phone != "" && !EmailTakenByOther(old(store.users), userId, email) ==>
      forall i :: 0 <= i < |old(store.users)| && old(store.users)[i].id == userId ==>
        (reply.Updated? <==>
           GenerateJwt(SubjectOf(Edited(old(store.users)[i], name, email, phone, now)), Some("user"), sign).Ok?)
  {
    if name == "" || email == "" || phone == "" {
      return MissingFields;
    }
    var found := FirstIndex(store.users, (u: User) => u.id == userId);
    if found.None? {
      return UserNotFound;
    }
    var i := found.value;
    if EmailTakenByOther(store.users, userId, email) {
      return InternalError;
    }
    var before := store.users;
    EditKeepsWellFormed(before, store.nextId, userId, name, email, phone, now);
    store.users := EditUsers(before, userId, name, email, phone, now);
    var updated := store.users[i];
    assert updated.id == userId;
    assert updated == Edited(before[i], name, email, phone, now);
    assert forall j :: 0 <= j < |before| && before[j].id == userId ==> j == i;
    NonVendorAlwaysBuilds(SubjectOf(updated), Some("user"));
    var token := GenerateJwt(SubjectOf(updated), Some("user"), sign);
    reply := if token.Ok? then Updated(token.value) else InternalError;
  }

  /** An edit whose email no other user has keeps ids in place and emails unique. */
  lemma EditKeepsWellFormed(users: seq<User>, nextId: Id, userId: Id, name: string, email: string, phone: string, now: int)
    requires WellFormedUsers(users, nextId)
    requires !EmailTakenByOther(users, userId, email)
    ensures WellFormedUsers(EditUsers(users, userId, name, email, phone, now), nextId)
  {
    var after := EditUsers(users, userId, name, email, phone, now);
    assert forall a :: 0 <= a < |after| ==> after[a].id == users[a].id;
    forall a, b | 0 <= a < b < |after| ensures after[a].email != after[b].email {
      if users[a].id != userId && users[b].id != userId {
        assert after[a] == users[a] && after[b] == users[b];
      } else if users[a].id != userId {
        assert after[a] == users[a] && after[b].email == email;
      } else if users[b].id != userId {
        assert after[b] == users[b] && after[a].email == email;
      }
    }
  }

  /** An edit of a user that does not exist changes nothing. */
  lemma EditUnknownUser(users: seq<User>, userId: Id, name: string, email: string, phone: string, now: int)
    requires forall i :: 0 <= i < |users| ==> users[i].id != userId
    ensures EditUsers(users, userId, name, email, phone, now) == users
  {
  }

  /** Editing a profile twice with the same fields gives the record the second call's time only. */
  lemma EditTwice(u: User, name: string, email: string, phone: string, t1: int, t2: int)
    ensures Edited(Edited(u, name, email, phone, t1), name, email, phone, t2) == Edited(u, name, email, phone, t2)
  {
  }
}
