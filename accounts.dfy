/**
 * Registration and login, src/routes/AuthRouter.js.  Users are kept in
 * insertion order, so `User.findOne(..)` is the first match.  Password hashing
 * (`bcrypt.hash`), hash comparison (`bcrypt.compare`) and token signing
 * (`jwt.sign`) are parameters: uninterpreted functions supplied by the caller.
 */
module Accounts {
  import opened Common
  import opened ArrayOps

  /** A stored account; `password` holds the hash, never the password itself. */
  datatype User = User(id: Id, username: Option<string>, password: string, role: Option<string>)

  /** What `jwt.sign` is given at login: the claims and the `expiresIn` option. */
  datatype TokenRequest = TokenRequest(userId: Id, role: Option<string>, expiresIn: string)

  const TOKEN_LIFETIME: string := "1h"
  const BAD_CREDENTIALS: string := "Invalid username or password"
  const USERNAME_TAKEN: string := "Username already exists"
  const SERVER_ERROR: string := "Server error"

  /** `User.findOne({ username })`. */
  function FindByUsername(users: seq<User>, name: Option<string>): (r: Option<nat>)
    ensures r.Some? ==> r.value < |users| && users[r.value].username == name
    ensures r.Some? ==> forall k :: 0 <= k < r.value ==> users[k].username != name
    ensures r.None? <==> forall k :: 0 <= k < |users| ==> users[k].username != name
  {
    FirstWhere(users, (u: User) => u.username == name)
  }

  /** `User.findById(id)`; an absent id finds nobody. */
  function FindById(users: seq<User>, id: Option<Id>): (r: Option<nat>)
    ensures r.Some? ==> id.Some? && r.value < |users| && users[r.value].id == id.value
    ensures r.Some? ==> forall k :: 0 <= k < r.value ==> users[k].id != id.value
    ensures r.None? <==> id.None? || forall k :: 0 <= k < |users| ==> users[k].id != id.value
  {
    if id.None? then None else FirstWhere(users, (u: User) => u.id == id.value)
  }

  /** No two accounts share a username. */
  ghost predicate UniqueUsernames(users: seq<User>)
  {
    forall i, j :: 0 <= i < j < |users| ==> users[i].username != users[j].username
  }

  /** No two accounts share an id. */
  ghost predicate UniqueIds(users: seq<User>)
  {
    forall i, j :: 0 <= i < j < |users| ==> users[i].id != users[j].id
  }

  /**
   * POST /login.  An unknown username and a wrong password get the same 401
   * reply; `bcrypt.compare` throws on an absent password, which is answered
   * 500; on success the token signs exactly `{userId, role}` for one hour.
   */
  function Login(users: seq<User>, username: Option<string>, password: Option<string>,
                 compare: (string, string) -> bool, sign: TokenRequest -> string): (r: Reply<string>)
    ensures FindByUsername(users, username).None? ==> r == Failure(UNAUTHORIZED, BAD_CREDENTIALS)
    ensures FindByUsername(users, username).Some? && password.None? ==> r == Failure(INTERNAL_ERROR, SERVER_ERROR)
    ensures FindByUsername(users, username).Some? && password.Some? ==>
      var u := users[FindByUsername(users, username).value];
      !compare(password.value, u.password) ==> r == Failure(UNAUTHORIZED, BAD_CREDENTIALS)
    ensures r.Success? <==>
      FindByUsername(users, username).Some? && password.Some? &&
      compare(password.value, users[FindByUsername(users, username).value].password)
    ensures r.Success? ==>
      var u := users[FindByUsername(users, username).value];
      r == Success(OK, sign(TokenRequest(u.id, u.role, TOKEN_LIFETIME)))
  {
    match FindByUsername(users, username)
    case None => Failure(UNAUTHORIZED, BAD_CREDENTIALS)
    case Some(i) =>
      if password.None? then Failure(INTERNAL_ERROR, SERVER_ERROR)
      else if !compare(password.value, users[i].password) then Failure(UNAUTHORIZED, BAD_CREDENTIALS)
      else Success(OK, sign(TokenRequest(users[i].id, users[i].role, TOKEN_LIFETIME)))
  }

  /** A caller cannot tell an unknown username from a wrong password. */
  lemma UnknownUserLooksLikeBadPassword(users: seq<User>, unknown: Option<string>, known: Option<string>,
                                        password: string, compare: (string, string) -> bool,
                                        sign: TokenRequest -> string)
    requires FindByUsername(users, unknown).None?
    requires FindByUsername(users, known).Some?
    requires !compare(password, users[FindByUsername(users, known).value].password)
    ensures Login(users, unknown, Some(password), compare, sign) == Login(users, known, Some(password), compare, sign)
  {
  }

  /** Appending an account leaves earlier first matches where they were. */
  lemma FindByUsernameAppend(users: seq<User>, u: User, name: Option<string>)
    ensures FindByUsername(users + [u], name) ==
      if FindByUsername(users, name).Some? then FindByUsername(users, name)
      else if u.username == name then Some(|users|)
      else None
  {
    var r := FindByUsername(users + [u], name);
    assert forall k :: 0 <= k < |users| ==> (users + [u])[k] == users[k];
    if FindByUsername(users, name).Some? {
      var i := FindByUsername(users, name).value;
      assert (users + [u])[i].username == name;
      assert r.value <= i;
      assert forall j :: 0 <= j < i ==> users[j].username != name by {
        assert FirstWhere(users, (v: User) => v.username == name) == Some(i);
      }
    } else if u.username == name {
      assert (users + [u])[|users|] == u;
    }
  }

  /** The accounts, as the `User` collection holds them. */
  class UserStore {
    var users: seq<User>

    ghost predicate Valid()
      reads this
    {
      UniqueUsernames(users) && UniqueIds(users)
    }

    constructor ()
      ensures Valid() && users == []
    {
      users := [];
    }

    /**
     * POST /register.  A taken username is answered 409 and nothing is stored;
     * `bcrypt.hash` throws on an absent password (500); otherwise exactly one
     * account is added, with the client-supplied role and `hash(password)`.
     * `newId` is the fresh id the store assigns.
     */
    method Register(username: Option<string>, password: Option<string>, role: Option<string>,
                    hash: string -> string, newId: Id) returns (reply: Reply<()>)
      requires Valid()
      requires forall k :: 0 <= k < |users| ==> users[k].id != newId
      modifies this
      ensures Valid()
      ensures FindByUsername(old(users), username).Some? ==>
        reply == Failure(CONFLICT, USERNAME_TAKEN) && users == old(users)
      ensures FindByUsername(old(users), username).None? && password.None? ==>
        reply == Failure(INTERNAL_ERROR, SERVER_ERROR) && users == old(users)
      ensures FindByUsername(old(users), username).None? && password.Some? ==>
        reply == Success(CREATED, ()) && users == old(users) + [User(newId, username, hash(password.value), role)]
    {
      if FindByUsername(users, username).Some? {
        return Failure(CONFLICT, USERNAME_TAKEN);
      }
      if password.None? {
        return Failure(INTERNAL_ERROR, SERVER_ERROR);
      }
      users := users + [User(newId, username, hash(password.value), role)];
      reply := Success(CREATED, ());
    }
  }

  /**
   * Registering and then logging in with the same password (when the hash
   * comparison accepts a password against its own hash) yields a token for
   * the new account's id and its client-chosen role.
   */
  lemma RegisterThenLogin(users: seq<User>, username: Option<string>, password: string, role: Option<string>,
                          newId: Id, hash: string -> string, compare: (string, string) -> bool,
                          sign: TokenRequest -> string)
    requires FindByUsername(users, username).None?
    requires compare(password, hash(password))
    ensures Login(users + [User(newId, username, hash(password), role)], username, Some(password), compare, sign)
      == Success(OK, sign(TokenRequest(newId, role, TOKEN_LIFETIME)))
  {
    FindByUsernameAppend(users, User(newId, username, hash(password), role), username);
  }
}
