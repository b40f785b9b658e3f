/** The `users` table (models.py): a record per user and the column
    constraints, stated over the table as a map from username to row. */
module Models {
  import opened Optional
  import Schemas

  /** A row. `username` and `hashed_password` are non-null by type;
      `created_at` holds the insertion time the database filled in. */
  datatype User = User(id: int, username: string, hashedPassword: string, createdAt: int)

  /** The constraints of the table, given the next primary key to assign:
      every row is stored under its own username (so usernames are unique),
      and the primary keys are positive, below `nextId` and pairwise distinct. */
  ghost predicate TableConstraints(users: map<string, User>, nextId: int) {
    && 1 <= nextId
    && (forall name | name in users :: users[name].username == name)
    && (forall name | name in users :: 1 <= users[name].id < nextId)
    && (forall a, b | a in users && b in users && a != b :: users[a].id != users[b].id)
  }

  /** Inserting a row under a fresh username with the next primary key keeps
      every constraint and changes no other row. */
  lemma InsertKeepsConstraints(users: map<string, User>, nextId: int, row: User)
    requires TableConstraints(users, nextId)
    requires row.username !in users && row.id == nextId
    ensures TableConstraints(users[row.username := row], nextId + 1)
    ensures forall name | name in users :: name in users[row.username := row] && users[row.username := row][name] == users[name]
  {
  }

  /** No two rows share a username or a primary key. */
  lemma RowsAreDistinct(users: map<string, User>, nextId: int, a: string, b: string)
    requires TableConstraints(users, nextId) && a in users && b in users && a != b
    ensures users[a].username != users[b].username && users[a].id != users[b].id
  {
  }

  /** The public view of a row (`UserInDB`, read from the ORM object). */
  function ToUserInDB(user: User): Schemas.UserInDB {
    Schemas.UserInDB(user.id, user.username, Some(user.createdAt))
  }

  /** The public view never depends on the password hash. */
  lemma ViewHidesHash(user: User, otherHash: string)
    ensures ToUserInDB(user) == ToUserInDB(user.(hashedPassword := otherHash))
  {
  }
}
