/** The fields of a user account that the handlers read and write. The User
    schema and its password hashing hook are not part of this model; the
    stored `password` is whatever that hook produced. */
module UserModel {
  import opened Common

  datatype User = User(id: nat, name: string, email: string, password: string)

  /** A user as `select('-password')` returns it. */
  datatype SafeUser = SafeUser(id: nat, name: string, email: string)

  function WithoutPassword(u: User): (s: SafeUser)
    ensures s.id == u.id && s.name == u.name && s.email == u.email
  {
    SafeUser(u.id, u.name, u.email)
  }

  /** `findOne({ email })`: the first user with this email. */
  function FindByEmail(users: seq<User>, email: string): (r: Option<nat>)
    ensures r.Some? ==> r.value < |users| && users[r.value].email == email
    ensures r.Some? ==> forall k :: 0 <= k < r.value ==> users[k].email != email
    ensures r.None? <==> forall k :: 0 <= k < |users| ==> users[k].email != email
  {
    FindFirst(users, (u: User) => u.email == email)
  }

  /** `findById(id)`: the first user with this id. */
  function FindById(users: seq<User>, id: nat): (r: Option<nat>)
    ensures r.Some? ==> r.value < |users| && users[r.value].id == id
    ensures r.Some? ==> forall k :: 0 <= k < r.value ==> users[k].id != id
    ensures r.None? <==> forall k :: 0 <= k < |users| ==> users[k].id != id
  {
    FindFirst(users, (u: User) => u.id == id)
  }
}
