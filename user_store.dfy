/** The module-level `users` array of the server and the three resolvers that read and
    write it. The array is the one piece of state; the class holds it as a sequence that
    `createUser` reassigns. */
module UserStore {
  import opened Decimal
  import opened UserTable

  class Store {
    var users: seq<User>

    /** The table as the module initialises it. */
    constructor ()
      ensures users == Seed()
      ensures IdsSequential(users)
    {
      users := Seed();
      SeedTable();
    }

    /** `getUsers`: the whole table, in stored order. */
    method GetUsers() returns (r: seq<User>)
      ensures r == users
    {
      r := users;
    }

    /** `getUserById`: the scan `Array.prototype.find` performs, front to back, stopping
        at the first record whose id is `id`. */
    method GetUserById(id: string) returns (r: Option<User>)
      ensures r == FindById(users, id)
      ensures r.None? <==> forall i | 0 <= i < |users| :: users[i].id != id
      ensures r.Some? ==> exists k :: FirstMatchAt(users, id, k) && r.value == users[k]
    {
      var k := 0;
      while k < |users|
        invariant 0 <= k <= |users|
        invariant forall j | 0 <= j < k :: users[j].id != id
      {
        if users[k].id == id {
          FindByIdFirstMatch(users, id, k);
          return Some(users[k]);
        }
        k := k + 1;
      }
      r := None;
    }

    /** `createUser` as the repository has it: building the record reads `user.length`,
        and `user` is bound nowhere in the resolver's scope (the module binds `users`; the
        `user` parameter of the lambda passed to `find` is local to that lambda). Reading
        an unbound identifier throws, so the resolver ends before the `push`. The method
        has no `modifies` clause: the table is left as it was. */
    method CreateUserAsWritten(name: string, age: int, isMarried: bool) returns (c: Completion)
      ensures c == Throw(ReferenceError("user"))
    {
      c := Throw(ReferenceError("user"));
    }

    /** `createUser` as the comment at its id field describes it: id is the table length
        plus one in decimal, the record is appended, and nothing is returned. */
    method CreateUser(name: string, age: int, isMarried: bool)
      modifies this
      ensures users == old(users) + [NewUser(old(users), name, age, isMarried)]
      ensures |users| == |old(users)| + 1 && users[..|old(users)|] == old(users)
      ensures users[|old(users)|].id == NatToDecimal(|old(users)| + 1)
      ensures IdsSequential(old(users)) ==> IdsSequential(users)
      ensures IdsSequential(old(users)) ==>
                FindById(users, users[|old(users)|].id) == Some(users[|old(users)|])
    {
      var newUser := NewUser(users, name, age, isMarried);
      if IdsSequential(users) {
        CreateKeepsIdsSequential(users, name, age, isMarried);
        LookupCreated(users, name, age, isMarried);
      }
      users := users + [newUser];
    }
  }

  /** On the seeded table: "1" finds Michael Sanchez, "99" finds nothing, and after the
      intended `createUser("Alex", 5, false)` the table has five records, the fifth with
      id "5", and looking up "5" finds it. */
  method SeedScenario() returns (first: Option<User>, missing: Option<User>, after: seq<User>, created: Option<User>)
    ensures first == Some(User("1", "Michael Sanchez", AgeText("31"), true))
    ensures missing == None
    ensures |after| == 5 && after[..4] == Seed()
    ensures after[4] == User("5", "Alex", AgeInt(5), false)
    ensures created == Some(after[4])
  {
    var store := new Store();
    first := store.GetUserById("1");
    missing := store.GetUserById("99");
    SeedLookups();
    store.CreateUser("Alex", 5, false);
    after := store.GetUsers();
    created := store.GetUserById("5");
  }

  /** The same call on the repository's `createUser`: it throws and the table keeps its
      four records, so "5" is never found. */
  method SeedScenarioAsWritten() returns (c: Completion, after: seq<User>, created: Option<User>)
    ensures c == Throw(ReferenceError("user"))
    ensures after == Seed() && |after| == 4
    ensures created == None
  {
    var store := new Store();
    c := store.CreateUserAsWritten("Alex", 5, false);
    after := store.GetUsers();
    created := store.GetUserById("5");
  }
}
