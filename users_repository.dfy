/**
 * `UsersRepository`: two fixed users, looked up by user name or by id with the first
 * match of a stream filter.
 */
module UsersRepository {
  import opened Wrappers
  import opened Models

  /** The repository's list: juan (id 1, admin) and manolo (id 2, plain user). */
  const Users: seq<User> := [
    User(1, "juan", BcryptHash("juan1234"), ADMIN),
    User(2, "manolo", BcryptHash("manolo1234"), USER)
  ]

  /** `stream().filter(p).findFirst()`: the first element satisfying `p`, if any. */
  function FindFirst(users: seq<User>, p: User -> bool): (r: Option<User>)
    ensures r.None? <==> forall i :: 0 <= i < |users| ==> !p(users[i])
    ensures r.Some? ==> exists i :: (0 <= i < |users| && users[i] == r.value && p(users[i])
      && forall j :: 0 <= j < i ==> !p(users[j]))
    decreases |users|
  {
    if users == [] then None
    else if p(users[0]) then Some(users[0])
    else FindFirst(users[1..], p)
  }

  /** `findByUsername(username)`. */
  function FindByUsername(username: string): (r: Option<User>)
    ensures r.Some? ==> r.value in Users && r.value.username == username
    ensures r.None? <==> forall u :: u in Users ==> u.username != username
  {
    FindFirst(Users, (u: User) => u.username == username)
  }

  /** `findByById(id)`. */
  function FindByById(id: int): (r: Option<User>)
    ensures r.Some? ==> r.value in Users && r.value.id == id
    ensures r.None? <==> forall u :: u in Users ==> u.id != id
  {
    FindFirst(Users, (u: User) => u.id == id)
  }

  /** User names and ids are unique, so the first match is the only one. */
  lemma {:induction false} UsersKeysUnique()
    ensures forall i, j :: 0 <= i < |Users| && 0 <= j < |Users| && Users[i].username == Users[j].username ==> i == j
    ensures forall i, j :: 0 <= i < |Users| && 0 <= j < |Users| && Users[i].id == Users[j].id ==> i == j
  {
  }

  /** The known users are found under their names and ids with their roles. */
  lemma KnownUsers()
    ensures FindByUsername("juan") == Some(Users[0]) && Users[0].id == 1 && Users[0].role == ADMIN
    ensures FindByUsername("manolo") == Some(Users[1]) && Users[1].id == 2 && Users[1].role == USER
    ensures FindByById(1) == FindByUsername("juan")
    ensures FindByById(2) == FindByUsername("manolo")
    ensures FindByById(3) == None && FindByUsername("pepe") == None
  {
    KnownNamesDiffer();
    OnlyMatch("juan", 0);
    OnlyMatch("manolo", 1);
    OnlyIdMatch(1, 0);
    OnlyIdMatch(2, 1);
    NoNameMatch("pepe");
    NoIdMatch(3);
  }

  /** The names of the fixed users differ from each other and from "pepe". */
  lemma KnownNamesDiffer()
    ensures "juan" != "manolo" && "pepe" != "juan" && "pepe" != "manolo"
  {
    assert "juan"[0] != "manolo"[0];
    assert "pepe"[0] != "juan"[0] && "pepe"[0] != "manolo"[0];
  }

  /** A name held by exactly one listed user finds that user. */
  lemma OnlyMatch(username: string, i: nat)
    requires i < |Users| && Users[i].username == username
    requires forall j :: 0 <= j < |Users| && j != i ==> Users[j].username != username
    ensures FindByUsername(username) == Some(Users[i])
  {
    assert Users[i] in Users;
  }

  /** An id held by exactly one listed user finds that user. */
  lemma OnlyIdMatch(id: int, i: nat)
    requires i < |Users| && Users[i].id == id
    requires forall j :: 0 <= j < |Users| && j != i ==> Users[j].id != id
    ensures FindByById(id) == Some(Users[i])
  {
    assert Users[i] in Users;
  }

  /** A name no listed user holds finds nothing. */
  lemma NoNameMatch(username: string)
    requires forall j :: 0 <= j < |Users| ==> Users[j].username != username
    ensures FindByUsername(username) == None
  {
  }

  /** An id no listed user holds finds nothing. */
  lemma NoIdMatch(id: int)
    requires forall j :: 0 <= j < |Users| ==> Users[j].id != id
    ensures FindByById(id) == None
  {
  }

  /** Looking a user up by the id found under its name finds the same user. */
  lemma NameThenIdRoundTrip(username: string)
    requires FindByUsername(username).Some?
    ensures FindByById(FindByUsername(username).value.id) == FindByUsername(username)
  {
    assert "juan" != "manolo" by {
      assert "juan"[0] != "manolo"[0];
    }
  }
}
