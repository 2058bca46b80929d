/**
 * ExampleService: validation and orchestration of the CRUD operations over the
 * store, with the "examples" read cache that `@Cacheable` and `@CacheEvict`
 * put in front of `findById`, `update` and `delete`.
 *
 * The store and the cache are fields that the operations reassign. The class
 * invariant says that every cached entry is the entry currently stored under
 * that id, so a read through the cache never returns a stale entity.
 */
module Service {
  import opened Common
  import opened Text
  import opened Repository

  /** The three business exceptions the service throws, with their messages. */
  datatype ServiceError =
    | NotFound(message: string)
    | BadRequest(message: string)
    | Conflict(message: string)

  datatype Result<T> = Ok(value: T) | Err(error: ServiceError)

  /** The outcome of an operation that returns nothing (`void`) or throws. */
  datatype Outcome = Done | Fail(error: ServiceError)

  /** The request body of create and update: the columns the service copies. */
  datatype EntityInput = EntityInput(name: Option<string>, description: Option<string>, status: Option<string>)

  const SearchTermEmptyMessage := "Search term cannot be empty"
  const NameRequiredMessage := "Name is required"
  const NotFoundPrefix := "Example entity not found with id: "

  const ConflictPrefix := "Example entity with name '"
  const ConflictSuffix := "' already exists"

  /** The NotFound message: the fixed prefix, then the id in decimal. */
  function NotFoundMessage(id: Id): (r: string)
    ensures |r| > |NotFoundPrefix|
    ensures r[..|NotFoundPrefix|] == NotFoundPrefix && r[|NotFoundPrefix|..] == LongToString(id)
  {
    NotFoundPrefix + LongToString(id)
  }

  /** The Conflict message: the name exactly as given, quoted inside fixed text. */
  function ConflictMessage(name: string): (r: string)
    ensures |r| == |ConflictPrefix| + |name| + |ConflictSuffix|
    ensures r[..|ConflictPrefix|] == ConflictPrefix
    ensures r[|ConflictPrefix|..|ConflictPrefix| + |name|] == name
    ensures r[|ConflictPrefix| + |name|..] == ConflictSuffix
  {
    ConflictPrefix + name + ConflictSuffix
  }

  /** The Conflict message names the rejected name: two names never share one. */
  lemma ConflictMessageIdentifiesName(a: string, b: string)
    requires ConflictMessage(a) == ConflictMessage(b)
    ensures a == b
  {
    var m := ConflictMessage(a);
    assert |a| == |b|;
    assert a == m[|ConflictPrefix|..|ConflictPrefix| + |a|] == b;
  }

  /** The NotFound message names the id: two ids never share a message. */
  lemma NotFoundMessageIdentifiesId(a: Id, b: Id)
    requires NotFoundMessage(a) == NotFoundMessage(b)
    ensures a == b
  {
    LongToStringInjective(a, b);
  }

  /**
   * The body of `findById` without the cache in front of it: the stored
   * entity, or NotFound naming the id. `update` and `delete` call `findById`
   * on `this`, which bypasses the cache proxy, so they read the store this way.
   */
  function Lookup(store: Store, id: Id): (r: Result<Entity>)
    requires WellKeyed(store)
    ensures r.Ok? <==> id in store
    ensures r.Ok? ==> r.value == store[id] && r.value.id == id
    ensures r.Err? ==> r.error == NotFound(NotFoundMessage(id))
  {
    match FindById(store, id)
    case Some(e) => Ok(e)
    case None => Err(NotFound(NotFoundMessage(id)))
  }

  /** No two stored entities share a (non-null) name. */
  predicate UniqueNames(store: Store) {
    forall a, b :: a in store && b in store && store[a].name.Some? && store[a].name == store[b].name ==> a == b
  }

  /**
   * Inserting a fresh row whose name no row has keeps names unique: the
   * existence check of `create` is enough to keep the invariant, in the absence
   * of concurrent creates.
   */
  lemma CreateKeepsNamesUnique(store: Store, e: Entity)
    requires UniqueNames(store)
    requires e.id !in store
    requires e.name.Some? && !ExistsByName(store, e.name.value)
    ensures UniqueNames(store[e.id := e])
  {
  }

  /** Two distinct rows with the same name break uniqueness. */
  lemma SharedNameBreaksUniqueness(store: Store, a: Id, b: Id)
    requires a != b && a in store && b in store
    requires store[a].name.Some? && store[a].name == store[b].name
    ensures !UniqueNames(store)
  {
  }

  class ExampleService {
    /** The rows of the repository. */
    var store: Store
    /** The "examples" cache, keyed by id. */
    var cache: map<Id, Entity>
    /** The id the database will assign to the next inserted row. */
    var nextId: Id

    ghost predicate Valid()
      reads this
    {
      && WellKeyed(store)
      && (forall k :: k in store ==> k < nextId)
      && IsSubStore(cache, store)
    }

    /**
     * A service over a repository that already holds `initial`, whose identity
     * sequence will next hand out `next`; the cache starts empty.
     */
    constructor (initial: Store, next: Id)
      requires WellKeyed(initial) && forall k :: k in initial ==> k < next
      ensures Valid()
      ensures store == initial && cache == map[] && nextId == next
    {
      store := initial;
      cache := map[];
      nextId := next;
    }

    /**
     * `findById` as callers see it, through the cache: a hit is answered from
     * the cache, a miss reads the store and caches a found entity (a NotFound
     * is not cached). By the invariant the answer is always the stored entity.
     */
    method FindById(id: Id) returns (r: Result<Entity>)
      requires Valid()
      modifies this`cache
      ensures Valid()
      ensures r == Lookup(store, id)
      ensures cache == if r.Ok? then old(cache)[id := r.value] else old(cache)
    {
      if id in cache {
        r := Ok(cache[id]);
      } else {
        r := Lookup(store, id);
        if r.Ok? {
          cache := cache[id := r.value];
        }
      }
    }

    /** `findAll`: every stored entity, unfiltered (pages are not modelled). */
    function FindAll(): (r: Store)
      reads this
      ensures r == store
    {
      store
    }

    /** `findByStatus`: a pass-through to the repository query. */
    function FindByStatus(status: string): (r: Store)
      reads this
      ensures IsSubStore(r, store)
      ensures forall k :: k in store ==> (k in r <==> store[k].status == Some(status))
    {
      Repository.FindByStatus(store, status)
    }

    /**
     * `search`: a null or blank term is a BadRequest; otherwise the store is
     * searched with the trimmed term.
     */
    function Search(term: Option<string>): (r: Result<Store>)
      reads this
      ensures r.Err? <==> IsNullOrBlank(term)
      ensures r.Err? ==> r.error == BadRequest(SearchTermEmptyMessage)
      ensures r.Ok? ==> r.value == Repository.Search(store, Trim(term.value))
      ensures r.Ok? ==> forall k :: k in r.value ==> k in store && Matches(store[k], Trim(term.value))
    {
      if IsNullOrBlank(term) then
        Err(BadRequest(SearchTermEmptyMessage))
      else
        Ok(Repository.Search(store, Trim(term.value)))
    }

    /**
     * `create`: a null or blank name is a BadRequest, a name some row already
     * has (compared untrimmed) is a Conflict; both leave everything unchanged.
     * Otherwise the entity is inserted under the next id and returned. The
     * cache is untouched: the new id cannot be in it.
     */
    method Create(input: EntityInput) returns (r: Result<Entity>)
      requires Valid()
      modifies this
      ensures Valid()
      ensures cache == old(cache)
      ensures IsNullOrBlank(input.name) ==> r == Err(BadRequest(NameRequiredMessage))
      ensures !IsNullOrBlank(input.name) && ExistsByName(old(store), input.name.value) ==>
                r == Err(Conflict(ConflictMessage(input.name.value)))
      ensures r.Ok? <==> !IsNullOrBlank(input.name) && !ExistsByName(old(store), input.name.value)
      ensures r.Err? ==> store == old(store) && nextId == old(nextId)
      ensures r.Ok? ==>
                && r.value == Entity(old(nextId), input.name, input.description, input.status)
                && old(nextId) !in old(store)
                && store == old(store)[old(nextId) := r.value]
                && nextId == old(nextId) + 1
                && ExistsByName(store, input.name.value)
      ensures UniqueNames(old(store)) ==> UniqueNames(store)
    {
      if IsNullOrBlank(input.name) {
        return Err(BadRequest(NameRequiredMessage));
      }
      var name := input.name.value;
      if ExistsByName(store, name) {
        return Err(Conflict(ConflictMessage(name)));
      }
      var e := Entity(nextId, input.name, input.description, input.status);
      if UniqueNames(store) {
        CreateKeepsNamesUnique(store, e);
      }
      assert store[e.id := e][e.id].name == Some(name);
      store := Save(store, e);
      nextId := nextId + 1;
      r := Ok(e);
    }

    /**
     * `update`: NotFound (and no change) when the id is absent; otherwise the
     * stored entity gets exactly the body's name, description and status, keeps
     * its id, and the id's cache entry is evicted. No blank-name or uniqueness
     * check is made.
     */
    method Update(id: Id, patch: EntityInput) returns (r: Result<Entity>)
      requires Valid()
      modifies this
      ensures Valid()
      ensures nextId == old(nextId)
      ensures id !in old(store) ==>
                r == Err(NotFound(NotFoundMessage(id))) && store == old(store) && cache == old(cache)
      ensures id in old(store) ==>
                && r == Ok(Entity(id, patch.name, patch.description, patch.status))
                && store == old(store)[id := r.value]
                && cache == old(cache) - {id}
    {
      var existing := Lookup(store, id);
      if existing.Err? {
        return Err(existing.error);
      }
      var e := existing.value.(name := patch.name, description := patch.description, status := patch.status);
      store := Save(store, e);
      cache := cache - {id};
      r := Ok(e);
    }

    /**
     * `delete`: NotFound (and no change) when the id is absent; otherwise that
     * entity, and only it, is removed from the store and from the cache.
     */
    method Delete(id: Id) returns (r: Outcome)
      requires Valid()
      modifies this
      ensures Valid()
      ensures nextId == old(nextId)
      ensures id !in old(store) ==>
                r == Fail(NotFound(NotFoundMessage(id))) && store == old(store) && cache == old(cache)
      ensures id in old(store) ==>
                r == Done && store == old(store) - {id} && cache == old(cache) - {id}
    {
      var existing := Lookup(store, id);
      if existing.Err? {
        return Fail(existing.error);
      }
      store := Repository.Delete(store, existing.value);
      cache := cache - {id};
      r := Done;
    }
  }

  /** Blank padding around a search term does not change the search. */
  lemma SearchIgnoresPadding(svc: ExampleService, l: string, t: string, r: string)
    requires IsBlank(l) && IsBlank(r)
    ensures svc.Search(Some(l + t + r)) == svc.Search(Some(t))
  {
    TrimIgnoresPadding(l, t, r);
  }

  /**
   * After a successful update, a read through the cache returns the new
   * values: the evicted entry cannot serve the pre-update entity.
   */
  method UpdateThenFindById(svc: ExampleService, id: Id, patch: EntityInput)
    returns (updated: Result<Entity>, found: Result<Entity>)
    requires svc.Valid()
    modifies svc
    ensures svc.Valid()
    ensures updated.Ok? ==> found == updated
    ensures updated.Ok? ==> found.value.name == patch.name && found.value.status == patch.status
  {
    updated := svc.Update(id, patch);
    found := svc.FindById(id);
  }

  /**
   * After a successful delete, a read through the cache is NotFound.
   */
  method DeleteThenFindById(svc: ExampleService, id: Id) returns (deleted: Outcome, found: Result<Entity>)
    requires svc.Valid()
    modifies svc
    ensures svc.Valid()
    ensures deleted == Done ==> found == Err(NotFound(NotFoundMessage(id)))
  {
    deleted := svc.Delete(id);
    found := svc.FindById(id);
  }

  /**
   * Creating "A" succeeds with id 1, creating "A" again is a Conflict, id 1
   * is then found and id 999 is NotFound.
   */
  method CreateTwiceScenario() {
    var svc := new ExampleService(map[], 1);
    var a := EntityInput(Some("A"), None, None);
    assert !IsBlank("A") by { assert !IsTrimmable("A"[0]); }
    var first := svc.Create(a);
    assert first == Ok(Entity(1, Some("A"), None, None));
    var second := svc.Create(a);
    assert second.Err? && second.error.Conflict?;
    var found := svc.FindById(1);
    assert found == first;
    var missing := svc.FindById(999);
    assert missing.Err? && missing.error.NotFound?;
  }

  /** Creating "A" on a new service stores it under id 1. */
  method CreateOneScenario() returns (svc: ExampleService)
    ensures fresh(svc) && svc.Valid() && svc.nextId == 2
    ensures svc.store == map[1 := Entity(1, Some("A"), None, None)]
  {
    svc := new ExampleService(map[], 1);
    assert !IsBlank("A") by { assert !IsTrimmable("A"[0]); }
    var a := svc.Create(EntityInput(Some("A"), None, None));
  }

  /** Creating "B" next stores it under id 2. */
  method CreateTwoScenario() returns (svc: ExampleService)
    ensures fresh(svc) && svc.Valid()
    ensures svc.store == map[1 := Entity(1, Some("A"), None, None), 2 := Entity(2, Some("B"), None, None)]
  {
    svc := CreateOneScenario();
    assert !IsBlank("B") by { assert !IsTrimmable("B"[0]); }
    assert !ExistsByName(svc.store, "B") by {
      assert "A" != "B" by { assert "A"[0] != "B"[0]; }
    }
    var b := svc.Create(EntityInput(Some("B"), None, None));
  }

  /**
   * Update copies the name without the checks create makes: renaming the
   * second entity to the first one's name succeeds, and two rows then share
   * it.
   */
  method UpdateSkipsUniquenessScenario() {
    var svc := CreateTwoScenario();
    var u := svc.Update(2, EntityInput(Some("A"), None, None));
    assert u.Ok? && svc.store[1].name == svc.store[2].name == Some("A");
    SharedNameBreaksUniqueness(svc.store, 1, 2);
  }
}
