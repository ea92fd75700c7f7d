/**
 * The account store shared by the signup, login and profile routes: the user collection
 * (models/user.js) and the admin collection.
 */
module Accounts {
  import opened Basics

  /** A stored user. A field the record lacks is `None`; `name` and `email` are required. */
  datatype User = User(
    id: Id,
    name: string,
    email: string,
    phone: Option<string>,
    password: Option<string>,
    dpUrl: Option<string>,
    createdAt: int,
    isGoogleLogin: Option<bool>,
    updatedAt: Option<int>,
    isAppliedForVendor: Option<bool>)

  /** The fields of an admin record that the routes read. */
  datatype Admin = Admin(id: Id, email: string, password: Option<string>)

  predicate UserHasEmail(users: seq<User>, email: string) {
    exists i :: 0 <= i < |users| && users[i].email == email
  }

  predicate AdminHasEmail(admins: seq<Admin>, email: string) {
    exists i :: 0 <= i < |admins| && admins[i].email == email
  }

  /** User ids are handed out in increasing order and the email index is unique. */
  ghost predicate WellFormedUsers(users: seq<User>, nextId: Id) {
    && (forall i :: 0 <= i < |users| ==> users[i].id < nextId)
    && (forall i, j :: 0 <= i < j < |users| ==> users[i].id < users[j].id)
    && (forall i, j :: 0 <= i < j < |users| ==> users[i].email != users[j].email)
  }

  class UserCollection {
    var users: seq<User>
    var admins: seq<Admin>
    var nextId: Id

    ghost predicate Valid()
      reads this
    {
      WellFormedUsers(users, nextId)
    }

    constructor (admins: seq<Admin>)
      ensures Valid() && users == [] && this.admins == admins
    {
      users := [];
      this.admins := admins;
      nextId := 0;
    }
  }
}
