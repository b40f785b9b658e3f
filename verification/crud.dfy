/** User persistence (crud.py) over an in-memory `users` table. The database
    session becomes a `UserStore` object whose methods update its fields. */
module Crud {
  import opened Optional
  import opened Passwords
  import opened Schemas
  import opened Models

  class UserStore {
    /** The password hasher `create_user` uses (passlib in the source). */
    const hasher: Hasher
    /** The `users` table, keyed by username. */
    var users: map<string, User>
    /** The primary key the next inserted row receives. */
    var nextId: int
    /** For each stored user, the plaintext and the salt its hash was
        computed from. The system never keeps these; they exist only to state
        what the stored hashes are. */
    ghost var passwords: map<string, string>
    ghost var salts: map<string, Salt>

    ghost predicate Valid()
      reads this
    {
      && Sound(hasher)
      && TableConstraints(users, nextId)
      && users.Keys == passwords.Keys
      && users.Keys == salts.Keys
      && (forall name | name in users ::
            ValidPassword(passwords[name]) && users[name].hashedPassword == GetPasswordHash(hasher, passwords[name], salts[name]))
    }

    /** An empty table. */
    constructor (hasher: Hasher)
      requires Sound(hasher)
      ensures Valid()
      ensures this.hasher == hasher && users == map[] && nextId == 1
    {
      this.hasher := hasher;
      users := map[];
      nextId := 1;
      passwords := map[];
      salts := map[];
    }

    /** `get_user_by_username`: the row with that username, if any. */
    function GetUserByUsername(username: string): (user: Option<User>)
      reads this
      requires Valid()
      ensures user.Some? <==> username in users
      ensures user.Some? ==> user.value.username == username && user.value in users.Values
    {
      if username in users then Some(users[username]) else None
    }

    /** `create_user`: hashes the password with a fresh salt and inserts a
        row, which receives the next primary key and the current time. A
        username already in the table violates its unique constraint: the
        insert is rolled back and `None` is returned. */
    method CreateUser(user: UserCreate, salt: Salt, now: int) returns (created: Option<User>)
      requires Valid() && ValidUserCreate(user)
      modifies this
      ensures Valid()
      ensures created.None? <==> old(user.username in users)
      ensures created.None? ==>
                && users == old(users) && nextId == old(nextId)
                && passwords == old(passwords) && salts == old(salts)
      ensures created.Some? ==>
                && created.value == User(old(nextId), user.username, GetPasswordHash(hasher, user.password, salt), now)
                && users == old(users)[user.username := created.value]
                && nextId == old(nextId) + 1
                && passwords == old(passwords)[user.username := user.password]
                && salts == old(salts)[user.username := salt]
      ensures created.Some? ==> GetUserByUsername(user.username) == created
      ensures created.Some? ==>
                && VerifyPassword(hasher, user.password, created.value.hashedPassword)
                && created.value.hashedPassword != user.password
    {
      if user.username in users {
        return None;
      }
      var hashed := GetPasswordHash(hasher, user.password, salt);
      var row := User(nextId, user.username, hashed, now);
      InsertKeepsConstraints(users, nextId, row);
      users := users[user.username := row];
      nextId := nextId + 1;
      passwords := passwords[user.username := user.password];
      salts := salts[user.username := salt];
      HashIsNotPlaintext(hasher, user.password, salt);
      created := Some(row);
    }
  }

  /** A stored hash verifies against the password it was made from and
      against no other. */
  lemma StoredHashVerifiesOnlyItsPassword(store: UserStore, username: string, password: string)
    requires store.Valid() && username in store.users
    ensures VerifyPassword(store.hasher, password, store.users[username].hashedPassword)
            <==> password == store.passwords[username]
  {
    var stored := store.passwords[username];
    if password == stored {
      HashVerifies(store.hasher, stored, store.salts[username]);
    } else {
      WrongPasswordRejected(store.hasher, stored, password, store.salts[username]);
    }
  }

  /** No stored hash equals any acceptable password, in particular not the
      plaintext it was made from. */
  lemma NoStoredHashIsAPassword(store: UserStore, username: string, password: string)
    requires store.Valid() && username in store.users && ValidPassword(password)
    ensures store.users[username].hashedPassword != password
  {
    HashIsNotPlaintext(store.hasher, password, store.salts[username]);
  }
}
