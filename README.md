# Entity registry and subsystem list of a frame-loop game engine

This project models the two registries at the heart of the engine's frame
loop, in Dafny, and proves what they promise.

**EntityManager** (`entities.dfy`, `index_keys.dfy`). It keeps a table from
entity id to that entity's components. Each component is stored as a
component-type name mapped to a component-instance id.
- `create(id)` adds an empty entity.
- `get(id)` looks an entity up.
- `add(type, instanceId, entityId)` attaches a component, at most one per type.
- `index(...types)` creates a named index and returns its key. The key is the
  type names joined with "," in the order given.
- `getAll(key)` lists the entities that hold every type of that index.

The implementation file (`lib/managers/entity`) is not part of this model.
The manager is modelled from the behaviour its test suite asserts. The class
`Entities.EntityManager` holds the entity table and the index table (key to
type list). Module `EntityManagerSpec` replays each test case against the
class's contracts alone, and proves every asserted outcome.

**SystemManager** (`systems.dfy`). This is modelled as the code is written.
It has a `head` node pointer, a `count` and an array `systems` that is never
used.
- `use(system)` refuses primitives. It turns a constructor function into a new
  instance, wraps the result in a node `{ system, next: null }`, and makes
  that node `head` only if there is no head yet.
- `update(dt)` and `render()` follow `next` from `head` and call the matching
  hook of each subsystem that has one.

A subsystem is modelled as an object with two flags, `hasUpdate` and
`hasRender`. A walk returns the hook calls it makes, in order. Because no node
is ever linked behind `head`, only the first registered subsystem is ever
updated or rendered. That is proved, and listed under Findings together with
a corrected manager.

## Model

| member | source | states |
|---|---|---|
| `Entities.EntityManager.constructor` | test/spec/EntityManager.js:5-7 | A new manager has no entities and no indexes. |
| `Entities.EntityManager.Create` | test/spec/EntityManager.js:9-22 | Succeeds exactly when an id is given, is non-empty and is not taken yet. On success the entity table gains an empty entity under that id. Otherwise nothing changes. Indexes are untouched. |
| `Entities.EntityManager.Get` | test/spec/EntityManager.js:24-40 | Returns not-found exactly when no entity has the id. Otherwise returns a record whose id is the requested id and whose components are that entity's. |
| `Entities.EntityManager.Add` | test/spec/EntityManager.js:42-57 | Succeeds exactly when the entity exists and has no component of that type yet. On success exactly that one component is recorded. On failure nothing changes, so the first instance of a type is kept. |
| `Entities.IndexKey` | test/spec/EntityManager.js:60-67 | There is no key exactly when no type is given. A single type's key is the type name itself. |
| `Entities.IndexKeyRoundTrip` | test/spec/EntityManager.js:64-67 | For comma-free names the key is lossless: the names, in order, can be read back from it. |
| `Entities.EntityManager.Index` | test/spec/EntityManager.js:59-79 | Returns the key of the call, for both the separate-arguments form and the single-array form. Creates the index only if its key is new and otherwise keeps the existing one (idempotent). When the requested names and the list already stored under the key are both comma-free, that list is exactly the requested types. An earlier `index(["a,b"])` keeps its list `["a,b"]` when `index("a", "b")` is called later. Entities are untouched. |
| `Entities.EntityManager.GetAll` | test/spec/EntityManager.js:70-112 | Returns not-found exactly for a key never indexed. Otherwise returns a list without repeats that holds exactly the entities with every type of the index, as many entries as there are such entities. Components added before the index was created are included. |
| `Entities.AddGrowsMatching` | test/spec/EntityManager.js:84-103 | A successful add never removes an entity from an index. The receiving entity joins an index exactly when it now has all that index's types. |
| `Entities.CreateKeepsMatching` | test/spec/EntityManager.js:84-87 | Creating an entity changes no index, since a new entity has no components. |
| `Entities.MoreTypesFewerEntities` | test/spec/EntityManager.js:93-110 | An index over more types holds a subset of the entities of an index over a prefix of them, for example fizz,buzz within fizz. |
| `Entities.MatchingIgnoresOrder` | test/spec/EntityManager.js:66 | Two indexes over the same two types in either order stand for the same entities, even though their keys differ. |
| `IndexKeys.SplitJoin` | test/spec/EntityManager.js:64-67 | Splitting the comma-joined key gives back the non-empty list of comma-free type names. |
| `IndexKeys.JoinInjective` | test/spec/EntityManager.js:64-67 | Two non-empty lists of comma-free names have the same key if and only if they are the same list. |
| `IndexKeys.JoinSnoc` | test/spec/EntityManager.js:65-66 | Adding one more type to a non-empty list extends the key by "," and that type's name, whatever the names contain. |
| `IndexKeys.ExtendedListNewKey` | test/spec/EntityManager.js:65-66 | Adding a type to a non-empty list always changes the key, even for names that contain commas, so the keys for {A} and {A, B} never collide. |
| `IndexKeys.OrderMatters` | test/spec/EntityManager.js:66 | The key keeps argument order: two distinct comma-free types named in opposite orders give different keys. The condition is needed, because "a" and "a,a" give the same key in either order. |
| `IndexKeys.CommaNamesCollide` | test/spec/EntityManager.js:64-67 | The limit of the comma join: the one name "a,b" and the two names "a", "b" get the same key. |
| `EntityManagerSpec.CreateSpec` | test/spec/EntityManager.js:9-22 | Create with no id gives false. A new id gives true. The same id a second time gives false. |
| `EntityManagerSpec.GetSpec` | test/spec/EntityManager.js:24-40 | Get on an unknown id gives undefined. A created entity is found. Two created entities each come back under their own id. |
| `EntityManagerSpec.AddSpec` | test/spec/EntityManager.js:42-57 | Add to a missing entity gives false. Adding a new type gives true. The same type again gives false, and the first instance stays. |
| `EntityManagerSpec.IndexWithoutTypesSpec` | test/spec/EntityManager.js:60-62 | Index with no arguments gives false. |
| `EntityManagerSpec.IndexKeySpec` | test/spec/EntityManager.js:64-67 | Index("test") gives "test". Index("test1", "test2") gives "test1,test2". |
| `EntityManagerSpec.GetAllUnknownSpec` | test/spec/EntityManager.js:71-73 | GetAll on a key never indexed gives null. |
| `EntityManagerSpec.GetAllEmptySpec` | test/spec/EntityManager.js:75-79 | After index(["bla"]), getAll("bla") gives an empty list. |
| `EntityManagerSpec.FourEntities` | test/spec/EntityManager.js:84-87 | Four creates leave exactly four empty entities and no index. |
| `EntityManagerSpec.FizzBuzzFixture` | test/spec/EntityManager.js:84-91 | After the four adds, test1..test3 hold fizz, test3 also holds buzz, and test4 holds nothing. |
| `EntityManagerSpec.GetAllEntitiesSpec` | test/spec/EntityManager.js:81-111 | The fizz index holds test1, test2 and test3 but not test4. The fizz,buzz index holds test3 and none of the others. |
| `Systems.Dispatch` | lib/managers/system.js:33-49 | A walk over subsystems faults exactly when it meets null. It makes no more calls than there are subsystems. Every call is of the walk's phase (with the same `dt` for update), targets a registered subsystem and is made only on a subsystem that has that hook. |
| `Systems.DispatchCallsOnce` | lib/managers/system.js:35-39 | A walk calls a subsystem at most once for each time it appears in the walk: counted per target, the calls are a sub-multiset of the subsystems. |
| `Systems.DispatchStep` | lib/managers/system.js:35-38 | Visiting one more non-null subsystem appends exactly its hook call, if it has the hook, to the calls made so far, and nothing else. |
| `Systems.DispatchAppend` | lib/managers/system.js:35-39 | Calls follow chain order: when the first run has no null subsystem, walking one run and then another gives the first run's calls followed by the second's. |
| `Systems.DispatchExactly` | lib/managers/system.js:36-38 | With no null subsystem, every subsystem that has the hook is called. |
| `Systems.Walk` | lib/managers/system.js:33-49 | The `for (current = head; current; current = current.next)` loop makes exactly the calls of a walk over the subsystems of the chain from `head`, in chain order. |
| `Systems.SystemManager.constructor` | lib/managers/system.js:1-5 | A new manager has an empty `systems`, a null `head` and a `count` of 0. |
| `Systems.SystemManager.Use` | lib/managers/system.js:7-31 | Refuses exactly the primitives, and leaves `count`, `head` and the chain unchanged when it does. An object is returned as itself. A constructor function yields a new instance with that constructor's hooks. Null is admitted. Each success adds exactly 1 to `count`. `head` is set only by the first success, to a new node whose `next` is null. The invariant kept is that the chain from `head` has at most one node, holding the first registered value, and `systems` stays empty. |
| `Systems.SystemManager.Update` | lib/managers/system.js:33-40 | Calls `update(dt)`, with the caller's `dt`, on the first registered subsystem if it has that hook, and on no other. It faults exactly when that first registration is null. It changes nothing. |
| `Systems.SystemManager.Render` | lib/managers/system.js:42-49 | Calls `render()` on the first registered subsystem if it has that hook, and on no other. It faults exactly when that first registration is null. It changes nothing. |
| `Systems.UseResults` | lib/managers/system.js:10-30 | On one manager: a primitive is refused, an object comes back as itself, a constructor function without an update hook and with a render hook comes back as an instance distinct from the object registered before, with no update hook and with a render hook, null is admitted, and `count` ends at 3. |
| `Systems.SecondSystemSkipped` | lib/managers/system.js:19-40 | After two registrations of subsystems with an update hook, `count` is 2 but `update` calls only the first. |
| `Systems.OrderedSystemManager.constructor` | lib/managers/system.js:1-5 | The corrected manager starts empty. |
| `Systems.OrderedSystemManager.Use` | lib/managers/system.js:7-31 | Same results as `SystemManager.Use`, but every accepted value is appended at the end of the chain through a `tail` pointer. The kept invariant is that the chain holds every registered value in order, with no node repeated. |
| `Systems.OrderedSystemManager.Update` | lib/managers/system.js:33-40 | Makes exactly the update calls of a walk over every registered subsystem, in registration order. |
| `Systems.OrderedSystemManager.Render` | lib/managers/system.js:42-49 | Makes exactly the render calls of a walk over every registered subsystem, in registration order. |
| `Systems.SecondSystemVisited` | lib/managers/system.js:19-40 | On the corrected manager the same two registrations are both updated, the first and then the second. |

## Findings

| source | as written | input that shows it | evidently intended | confidence | as-written member | corrected member |
|---|---|---|---|---|---|---|
| lib/managers/system.js:19-26 | Each new node is linked in only when `head` is null. Every later node is created and dropped, so `update` and `render` reach only the first registered subsystem. | `use(A); use(B); update(dt)` with both A and B having an update hook: `count` is 2, but only `A.update(dt)` is called. | Each registration is appended to the chain, so that every registered subsystem is visited in registration order. | high; not executed | `Systems.SecondSystemSkipped` | `Systems.OrderedSystemManager.Update` |

## Left out

- `lib/managers/entity` is not part of this model. `Entities.EntityManager` is built on what the test suite asserts, and it also commits to more than the tests assert. `getAll` is computed from the live entity table and the index's type list, so it reflects every `add`, whether it came before or after `index`. It returns each qualifying entity once. The tests assert neither point: they only make adds before `index`, and they only check membership. How the implementation caches index lists is not modelled.
- `Entities.EntityManager.GetAll` returns its list in no particular order, since the tests only check membership. The model returns a new list. Whether the implementation hands out its internal array, which a caller could then alias, is unknown.
- `Entities.EntityManager.Get` returns a copy of the entity record. The JavaScript object a caller receives may be the live record.
- `Entities.EntityManager.Create` takes an optional string. Missing ids and the empty string are refused. The tests only show the missing case. Refusing the empty string is a modelling choice, since no shipped source shows that case. Non-string ids are not modelled.
- No entity deletion and no component removal. Neither is exercised.
- Jasmine itself (`describe`, `it`, `expect`, `jasmine.any(Array)`) is not modelled. Only the asserted outcomes are. The `console.log` in the last getAll test is output only.
- The bodies of subsystem `update` and `render` hooks are foreign code. A walk records the calls instead of running them.
- A constructor function passed to `use` is described only by the hooks of the instance it builds. Its own code is not modelled.
- `Systems.SystemManager.Use` and `Systems.OrderedSystemManager.Use` promise a fresh instance for a constructor function. In JavaScript, `new F()` yields F's own return value when F explicitly returns an object, and that object need not be new. This case is not modelled.
- The `console.error` diagnostic of a refused `use` is output and is not modelled.
- `Systems.SystemManager.Update`: reading a hook of a null subsystem throws a TypeError in JavaScript. The model reports this as a fault and stops the walk. It does not model the exception reaching the frame loop.
- `dt` is a JavaScript number. It is modelled as a `real` and only passed through, so floating point plays no part.
- `count` is an unbounded integer. JavaScript number precision past 2^53 registrations is ignored.
- The guard of `use` admits `null`, because `typeof null` is "object". The model keeps this behaviour as written.
