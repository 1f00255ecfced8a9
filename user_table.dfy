/** The values held by the server's in-memory user table: the record shape, the four
    seed records, the first-match lookup `getUserById` performs, and the record the
    intended `createUser` builds, with the facts that keep the table's ids distinct. */
module UserTable {
  import opened Decimal

  /** The seed records store their ages as strings ("31"); a created record stores the
      `Int` argument of the mutation. */
  datatype Age = AgeText(text: string) | AgeInt(value: int)

  datatype User = User(id: string, name: string, age: Age, isMarried: bool)

  /** `Array.prototype.find` yields either a record or `undefined` (None). */
  datatype Option<T> = None | Some(value: T)

  /** The only exception the modelled code can raise. */
  datatype JsError = ReferenceError(identifier: string)

  /** How a resolver call ends: it returns normally or it throws. */
  datatype Completion = Normal | Throw(error: JsError)

  /** The table the server starts with. */
  function Seed(): seq<User> {
    [ User("1", "Michael Sanchez", AgeText("31"), true),
      User("2", "Sarah Le", AgeText("31"), true),
      User("3", "Truffles", AgeText("11"), false),
      User("4", "Ginny", AgeText("6"), false) ]
  }

  /** No two records share an id. */
  predicate DistinctIds(users: seq<User>) {
    forall i, j | 0 <= i < j < |users| :: users[i].id != users[j].id
  }

  /** The ids are "1", "2", ..., in table order. */
  predicate IdsSequential(users: seq<User>) {
    forall i | 0 <= i < |users| :: users[i].id == NatToDecimal(i + 1)
  }

  /** Position `k` holds the first record, in table order, whose id is `id`. */
  predicate FirstMatchAt(users: seq<User>, id: string, k: int) {
    0 <= k < |users| && users[k].id == id &&
    forall j | 0 <= j < k :: users[j].id != id
  }

  /** `users.find(user => user.id === id)`: the first record whose id equals `id`,
      or None when there is none. */
  function FindById(users: seq<User>, id: string): (r: Option<User>)
    ensures r.None? <==> forall i | 0 <= i < |users| :: users[i].id != id
    ensures r.Some? ==> r.value in users && r.value.id == id
    decreases |users|
  {
    if users == [] then None
    else if users[0].id == id then Some(users[0])
    else FindById(users[1..], id)
  }

  /** The lookup yields exactly the record at the first matching position. */
  lemma {:induction false} FindByIdFirstMatch(users: seq<User>, id: string, k: int)
    requires FirstMatchAt(users, id, k)
    ensures FindById(users, id) == Some(users[k])
    decreases |users|
  {
    if k > 0 {
      assert users[0].id != id;
      FindByIdFirstMatch(users[1..], id, k - 1);
    }
  }

  /** When ids are distinct, looking up any stored id yields that record. */
  lemma LookupStoredId(users: seq<User>, k: int)
    requires DistinctIds(users) && 0 <= k < |users|
    ensures FindById(users, users[k].id) == Some(users[k])
  {
    FindByIdFirstMatch(users, users[k].id, k);
  }

  /** Ids "1".."n" in order are pairwise distinct. */
  lemma SequentialIdsDistinct(users: seq<User>)
    requires IdsSequential(users)
    ensures DistinctIds(users)
  {
    forall i, j | 0 <= i < j < |users|
      ensures users[i].id != users[j].id
    {
      NatToDecimalInjective(i + 1, j + 1);
    }
  }

  /** The seed holds four records with ids "1".."4" in that order, pairwise distinct. */
  lemma SeedTable()
    ensures |Seed()| == 4
    ensures IdsSequential(Seed())
    ensures DistinctIds(Seed())
  {
    SequentialIdsDistinct(Seed());
  }

  /** On the seed, "1" finds Michael Sanchez and "99" finds nothing. */
  lemma SeedLookups()
    ensures FindById(Seed(), "1") == Some(User("1", "Michael Sanchez", AgeText("31"), true))
    ensures FindById(Seed(), "99") == None
  {
    FindByIdFirstMatch(Seed(), "1", 0);
  }

  /** The record the intended `createUser` builds: its id is the table length plus one,
      rendered in decimal, and it carries the mutation's arguments. */
  function NewUser(users: seq<User>, name: string, age: int, isMarried: bool): User {
    User(NatToDecimal(|users| + 1), name, AgeInt(age), isMarried)
  }

  /** Appending the new record to a table with ids "1".."n" gives ids "1".."n+1". */
  lemma CreateKeepsIdsSequential(users: seq<User>, name: string, age: int, isMarried: bool)
    requires IdsSequential(users)
    ensures IdsSequential(users + [NewUser(users, name, age, isMarried)])
  {
  }

  /** On a table with ids "1".."n", the new id is not already present. */
  lemma NewIdFresh(users: seq<User>, name: string, age: int, isMarried: bool)
    requires IdsSequential(users)
    ensures forall i | 0 <= i < |users| :: users[i].id != NewUser(users, name, age, isMarried).id
  {
    forall i | 0 <= i < |users|
      ensures users[i].id != NewUser(users, name, age, isMarried).id
    {
      NatToDecimalInjective(i + 1, |users| + 1);
    }
  }

  /** On a table with ids "1".."n", looking up the new id after the append yields the new record. */
  lemma LookupCreated(users: seq<User>, name: string, age: int, isMarried: bool)
    requires IdsSequential(users)
    ensures FindById(users + [NewUser(users, name, age, isMarried)], NewUser(users, name, age, isMarried).id)
            == Some(NewUser(users, name, age, isMarried))
  {
    var u := NewUser(users, name, age, isMarried);
    NewIdFresh(users, name, age, isMarried);
    FindByIdFirstMatch(users + [u], u.id, |users|);
  }
}
