/** The behaviour the EntityManager test suite asserts, derived from the
    contracts of `Entities.EntityManager` alone. Each method replays one
    `describe` block: every `it` starts from a new manager, as the suite's
    `beforeEach` does, and the out-parameters are the values the suite
    checks with `expect`.
 */
module EntityManagerSpec {
  import opened Entities

  /** create: no id is refused, a new id is accepted, a repeated id is
      refused. */
  method CreateSpec() returns (noId: bool, newId: bool, first: bool, duplicate: bool)
    ensures !noId
    ensures newId
    ensures first && !duplicate
  {
    var entities := new EntityManager();
    noId := entities.Create(None);

    entities := new EntityManager();
    newId := entities.Create(Some("test"));

    entities := new EntityManager();
    first := entities.Create(Some("test"));
    duplicate := entities.Create(Some("test"));
  }

  /** get: an unknown id gives undefined; a created entity is found, and
      each of two entities comes back under its own id. */
  method GetSpec() returns (missing: Option<Entity>, created: Option<Entity>,
                            one: Option<Entity>, two: Option<Entity>)
    ensures missing == None
    ensures created.Some?
    ensures one.Some? && one.value.id == "test1"
    ensures two.Some? && two.value.id == "test2"
  {
    var entities := new EntityManager();
    missing := entities.Get("test");

    entities := new EntityManager();
    var _ := entities.Create(Some("test"));
    created := entities.Get("test");

    entities := new EntityManager();
    var _ := entities.Create(Some("test1"));
    var _ := entities.Create(Some("test2"));
    one := entities.Get("test1");
    two := entities.Get("test2");
  }

  /** add: no entity means false; a new type on an existing entity is
      accepted; the same type a second time is refused and the first
      instance stays. */
  method AddSpec() returns (noEntity: bool, added: bool, first: bool, second: bool, kept: Option<Entity>)
    ensures !noEntity
    ensures added
    ensures first && !second
    ensures kept.Some? && "fizz" in kept.value.components && kept.value.components["fizz"] == "1"
  {
    var entities := new EntityManager();
    noEntity := entities.Add("component", "componentID", "entity");

    entities := new EntityManager();
    var _ := entities.Create(Some("test"));
    added := entities.Add("fizz", "1", "test");

    entities := new EntityManager();
    var _ := entities.Create(Some("test"));
    first := entities.Add("fizz", "1", "test");
    second := entities.Add("fizz", "2", "test");
    kept := entities.Get("test");
  }

  /** index: called with no types it gives false. */
  method IndexWithoutTypesSpec() returns (none: Option<string>)
    ensures none == None
  {
    var entities := new EntityManager();
    none := entities.Index(Args([]));
  }

  /** index: one type gives that name; two types give them joined with a
      comma in the order given. */
  method IndexKeySpec() returns (single: Option<string>, pair: Option<string>)
    ensures single == Some("test")
    ensures pair == Some("test1,test2")
  {
    var entities := new EntityManager();
    single := entities.Index(Args(["test"]));
    pair := entities.Index(Args(["test1", "test2"]));
    assert IndexKeys.Join(["test1", "test2"]) == "test1" + [','] + IndexKeys.Join(["test2"]);
    assert "test1" + [','] + "test2" == "test1,test2";
  }

  /** getAll: null for a key no index was created under. */
  method GetAllUnknownSpec() returns (unknown: Option<seq<string>>)
    ensures unknown == None
  {
    var entities := new EntityManager();
    unknown := entities.GetAll("bla");
  }

  /** getAll: an empty list for an index (created with the array form)
      that no entity qualifies for. */
  method GetAllEmptySpec() returns (empty: Option<seq<string>>)
    ensures empty == Some([])
  {
    var entities := new EntityManager();
    var _ := entities.Index(Array(["bla"]));
    empty := entities.GetAll("bla");
    assert Matching(entities.entities, ["bla"]) == {};
  }

  /** The four entities of the last getAll test, before any component. */
  method FourEntities() returns (entities: EntityManager)
    ensures fresh(entities) && entities.Valid() && entities.indices == map[]
    ensures entities.entities == map["test1" := map[], "test2" := map[], "test3" := map[], "test4" := map[]]
  {
    entities := new EntityManager();
    var _ := entities.Create(Some("test1"));
    var _ := entities.Create(Some("test2"));
    var _ := entities.Create(Some("test3"));
    var _ := entities.Create(Some("test4"));
  }

  /** The same entities after fizz is attached to test1..test3 and buzz to
      test3, with no index yet. */
  method FizzBuzzFixture() returns (entities: EntityManager)
    ensures fresh(entities) && entities.Valid() && entities.indices == map[]
    ensures entities.entities.Keys == {"test1", "test2", "test3", "test4"}
    ensures entities.entities["test1"].Keys == {"fizz"}
    ensures entities.entities["test2"].Keys == {"fizz"}
    ensures entities.entities["test3"].Keys == {"fizz", "buzz"}
    ensures entities.entities["test4"].Keys == {}
  {
    entities := FourEntities();
    var _ := entities.Add("fizz", "1", "test1");
    var _ := entities.Add("fizz", "2", "test2");
    var _ := entities.Add("fizz", "3", "test3");
    var _ := entities.Add("buzz", "3", "test3");
  }

  /** getAll: with fizz on test1..test3 and buzz on test3, all attached
      before the indexes exist, the fizz index holds test1..test3 but not
      test4, and the fizz,buzz index holds only test3. */
  method GetAllEntitiesSpec() returns (fizz: Option<seq<string>>, fizzBuzz: Option<seq<string>>)
    ensures fizz.Some? && "test1" in fizz.value && "test2" in fizz.value && "test3" in fizz.value
    ensures fizz.Some? && "test4" !in fizz.value
    ensures fizzBuzz.Some? && "test3" in fizzBuzz.value
    ensures fizzBuzz.Some? && "test1" !in fizzBuzz.value && "test2" !in fizzBuzz.value && "test4" !in fizzBuzz.value
  {
    var entities := FizzBuzzFixture();

    var key := entities.Index(Args(["fizz"]));
    fizz := entities.GetAll(key.value);

    key := entities.Index(Args(["fizz", "buzz"]));
    fizzBuzz := entities.GetAll(key.value);
  }
}
