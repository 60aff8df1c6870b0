/** The part of `UserRepository` (src/repository/user.repository.ts) that
    sign-up relies on: users keyed by their unique login id, and creation
    of a user with a fresh numeric id. */
module UserRepository {
  import opened Wrappers

  /** A user row; `password` holds whatever the caller stored, which for
      sign-up is the hash. */
  datatype User = User(id: nat, loginId: string, password: string)

  /** The user table: rows by login id, and the next id the database will
      hand out. */
  datatype UserStore = UserStore(byLoginId: map<string, User>, nextId: nat)

  /** Every row is filed under its own login id, every id is below `nextId`,
      and no two rows share an id. */
  predicate Valid(s: UserStore) {
    && (forall l :: l in s.byLoginId ==> s.byLoginId[l].loginId == l && s.byLoginId[l].id < s.nextId)
    && (forall l1, l2 :: l1 in s.byLoginId && l2 in s.byLoginId && l1 != l2 ==>
          s.byLoginId[l1].id != s.byLoginId[l2].id)
  }

  predicate HasUserId(s: UserStore, id: nat) {
    exists l :: l in s.byLoginId && s.byLoginId[l].id == id
  }

  /** `findUserByEmailOrPhone(id)`: `findUnique({where: {loginId: id}})`. */
  function FindUserByLoginId(s: UserStore, loginId: string): (r: Option<User>)
    ensures r.None? <==> loginId !in s.byLoginId
    ensures Valid(s) && r.Some? ==> r.value.loginId == loginId
  {
    if loginId in s.byLoginId then Some(s.byLoginId[loginId]) else None
  }

  /** `createUser(id, hashedPassword)`. The login id is unique, so creating
      a second row for it fails (None stands for the thrown error). On
      success the new row carries the given login id and password, takes
      an id no existing row has, and nothing else changes. */
  function CreateUser(s: UserStore, loginId: string, hashedPassword: string): (r: Option<(User, UserStore)>)
    ensures r.None? <==> loginId in s.byLoginId
    ensures r.Some? ==>
              && r.value.0.loginId == loginId
              && r.value.0.password == hashedPassword
              && r.value.1.byLoginId == s.byLoginId[loginId := r.value.0]
              && (Valid(s) ==> !HasUserId(s, r.value.0.id) && Valid(r.value.1))
  {
    if loginId in s.byLoginId then None
    else
      var user := User(s.nextId, loginId, hashedPassword);
      Some((user, UserStore(s.byLoginId[loginId := user], s.nextId + 1)))
  }
}
