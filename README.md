# In-memory user table of a GraphQL server

The server in `server/server.js` keeps its users in a module-level array of four seed
records and answers three GraphQL operations against it: `getUsers` lists the array,
`getUserById` returns the first record whose `id` equals the argument (`Array.prototype.find`),
and `createUser` builds a record whose id is the array length plus one, as a string, and
pushes it onto the array. As written, `createUser` reads `user.length` where the module
binds `users`, so every call throws a `ReferenceError` before the push.

This project models that table in Dafny:

- `decimal.dfy` (module `Decimal`): `NatToDecimal`, the decimal rendering that
  `(n).toString()` gives for a non-negative integer, with its inverse `DecimalValue`, the
  round trip and injectivity.
- `user_table.dfy` (module `UserTable`): the `User` record, the seed table, the first-match
  lookup `FindById` as a specification function, the record the intended `createUser`
  builds (`NewUser`), and lemmas. The lemmas cover seed shape, lookup, id freshness and
  the preservation of ids `"1".."n"`.
- `user_store.dfy` (module `UserStore`): class `Store` holding the array as a `seq<User>`
  field. It has the read resolvers `GetUsers` and `GetUserById`. `GetUserById` runs the
  front-to-back scan of `find` as a loop, proved against `FindById`. It has the as-written
  `CreateUserAsWritten`, which throws and changes nothing, and the intended `CreateUser`,
  which `modifies this` and appends. Two scenario methods run the operations on the seeded
  table.

The code does no input validation and has no typed not-found error: a missing id yields
`undefined`, modelled as `None`. The new id comes from the table length. `createUser`
returns nothing.

Ages: the seed stores ages as strings (`"31"`), a created record stores the `Int`
argument; `Age` is a sum type `AgeText | AgeInt` holding whichever the code stores.

## Model

| member | source | states |
|---|---|---|
| `Decimal.NatToDecimal` | server/server.js:47 | the rendering of a count is a non-empty string of decimal digits, one digit exactly for values below ten, with no leading zero |
| `Decimal.DecimalRoundTrip` | server/server.js:47 | reading the rendered id string back as a decimal number gives the count it was rendered from |
| `Decimal.NatToDecimalInjective` | server/server.js:47 | two counts render to the same id string if and only if they are equal |
| `UserTable.FindById` | server/server.js:37-40 | the lookup yields nothing exactly when no record has the id, and otherwise a record of the table carrying that id |
| `UserTable.FindByIdFirstMatch` | server/server.js:39 | when position k holds the first record in table order with the id, the lookup yields exactly that record (the `find` first-match semantics) |
| `UserTable.LookupStoredId` | server/server.js:39 | in a table with distinct ids, looking up any stored record's id yields that record |
| `UserTable.SequentialIdsDistinct` | server/server.js:5-10 | a table whose ids are "1".."n" in order has pairwise distinct ids |
| `UserTable.SeedTable` | server/server.js:5-10 | the seed holds four records whose ids are "1","2","3","4" in order, pairwise distinct |
| `UserTable.SeedLookups` | server/server.js:5-10 | on the seed, id "1" yields Michael Sanchez (age "31", married) and id "99" yields nothing |
| `UserTable.CreateKeepsIdsSequential` | server/server.js:46-52 | appending the intended new record to a table with ids "1".."n" gives a table with ids "1".."n+1" |
| `UserTable.NewIdFresh` | server/server.js:46-47 | on a table with ids "1".."n", the intended new id differs from every stored id |
| `UserTable.LookupCreated` | server/server.js:46-52 | on a table with ids "1".."n", after the append, looking up the new id yields the new record |
| `UserStore.Store.constructor` | server/server.js:5-10 | the table starts as the four seed records, with ids "1".."4" |
| `UserStore.Store.GetUsers` | server/server.js:33-35 | returns the whole current table in stored order; the method has no modifies clause, so the table is unchanged |
| `UserStore.Store.GetUserById` | server/server.js:37-40 | the front-to-back scan returns the first record whose id equals the argument, nothing when none matches, and leaves the table unchanged |
| `UserStore.Store.CreateUserAsWritten` | server/server.js:43-53 | the repository's resolver throws a ReferenceError for the identifier `user` and, having no modifies clause, leaves the table unchanged |
| `UserStore.Store.CreateUser` | server/server.js:43-53 | the intended resolver appends one record with the given name, age and marital flag and id = decimal(old length + 1); earlier records are untouched and ids "1".."n" become "1".."n+1". The new id then finds the new record |
| `UserStore.SeedScenario` | server/server.js:5-53 | on the seed, "1" finds Michael Sanchez and "99" finds nothing. After the intended createUser("Alex", 5, false) there are five records, the fifth `{id "5", Alex, 5, false}`, and "5" finds it |
| `UserStore.SeedScenarioAsWritten` | server/server.js:43-53 | on the seed, the repository's createUser("Alex", 5, false) throws, the table keeps its four seed records and "5" finds nothing |

## Findings

| source | as written | input that shows it | evidently intended | confidence | as-written member | corrected member |
|---|---|---|---|---|---|---|
| server/server.js:47 | the id is computed from `user.length`, and `user` is bound nowhere in the resolver's scope, so the read throws a ReferenceError and the `push` at line 52 never runs | `createUser(name: "Alex", age: 5, isMarried: false)` on the seed table: it throws and the table still has four records | `users.length + 1` rendered as a string, as the comment at line 46 says, and the record appended | high (not executed) | `UserStore.SeedScenarioAsWritten` | `UserStore.Store.CreateUser` |

## Left out

- Server construction, listening on port 4000 and logging the URL (server/server.js:57-63): network I/O and process start-up.
- The GraphQL schema (server/server.js:14-30) and what the Apollo library does with it. This covers dispatching to resolvers, enforcing the `ID!`/`Int!`/`Boolean!` arguments, selecting fields, and coercing the seed's string ages to `Int` in responses. That behaviour lives in the library, which is not part of this model.
- The unused `parent` argument of the resolvers (server/server.js:37, 43).
- The GraphQL result of `createUser`: the resolver returns `undefined`, which the library reports as `null`. `CreateUser` simply has no out-parameter.
- `UserStore.Store.GetUsers`: returns the table as a value. In JavaScript it returns the live array itself, so later pushes would be seen through that reference. That aliasing is not modelled.
- `Decimal.NatToDecimal`: renders every natural number in plain decimal. JavaScript switches to exponent notation from 10^21 on. That cannot happen here: a JavaScript array holds at most 2^32 - 1 elements, so `users.length + 1 <= 2^32 < 10^21`.
- `UserStore.Store.CreateUser`: `users` is an unbounded sequence. The RangeError that `push` throws on an array already holding 2^32 - 1 elements is not modelled, so at that cap the model appends where JavaScript throws.
- client/reactQL/src/App.jsx and client/reactQL/src/main.jsx: rendering and client set-up over the Apollo and React libraries, not part of this model.
