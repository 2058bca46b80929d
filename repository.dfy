/**
 * The entity store behind ExampleRepository: a map from id to entity, with the
 * derived queries the repository declares (findByName, findByStatus, search,
 * existsByName) and the inherited findById, save and delete. Every query is a
 * read-only function of the store; pagination is not part of this model.
 */
module Repository {
  import opened Common
  import opened Text

  /** Entity ids are Java `Long`s. */
  type Id = int

  /**
   * An ExampleEntity row. Every column the service reads or writes is a Java
   * `String` and may be null.
   */
  datatype Entity = Entity(id: Id, name: Option<string>, description: Option<string>, status: Option<string>)

  type Store = map<Id, Entity>

  /** Each row is stored under its own id. */
  predicate WellKeyed(store: Store) {
    forall k :: k in store ==> store[k].id == k
  }

  /** The rows of `sub` are rows of `store`, under the same ids. */
  predicate IsSubStore(sub: Store, store: Store) {
    forall k :: k in sub ==> k in store && sub[k] == store[k]
  }

  /** `findById`: the row stored under `id`, if any. */
  function FindById(store: Store, id: Id): (r: Option<Entity>)
    requires WellKeyed(store)
    ensures r.Some? <==> id in store
    ensures r.Some? ==> r.value.id == id && r.value in store.Values
  {
    if id in store then Some(store[id]) else None
  }

  /** `existsByName`: some row's name equals `name` exactly (no trimming, no case folding). */
  predicate ExistsByName(store: Store, name: string) {
    exists k :: k in store && store[k].name == Some(name)
  }

  /** Two different rows carry the name `name`. */
  predicate NameShared(store: Store, name: string) {
    exists a, b :: a in store && b in store && a != b && store[a].name == Some(name) && store[b].name == Some(name)
  }

  /**
   * What the `Optional`-returning derived query `findByName` yields: the one
   * row with that name, nothing, or (when two rows share the name) the
   * `IncorrectResultSizeDataAccessException` the query then throws.
   */
  datatype NameLookup = Found(entity: Entity) | Absent | NonUnique

  /** `findByName`. */
  ghost function FindByName(store: Store, name: string): (r: NameLookup)
    ensures r.NonUnique? <==> NameShared(store, name)
    ensures r.Found? ==> r.entity.name == Some(name)
    ensures r.Found? ==> forall k :: k in store && store[k].name == Some(name) ==> store[k] == r.entity
    ensures r.Found? ==> r.entity in store.Values
    ensures r.Absent? ==> forall k :: k in store ==> store[k].name != Some(name)
  {
    if NameShared(store, name) then
      NonUnique
    else if ExistsByName(store, name) then
      var k :| k in store && store[k].name == Some(name);
      Found(store[k])
    else
      Absent
  }

  /** The names the stored rows carry: a reference definition for `existsByName`. */
  function Names(store: Store): (r: set<string>)
    ensures forall k :: k in store && store[k].name.Some? ==> store[k].name.value in r
  {
    set k | k in store && store[k].name.Some? :: store[k].name.value
  }

  /** `findByStatus`: exactly the rows whose status equals `status`. */
  function FindByStatus(store: Store, status: string): (r: Store)
    ensures IsSubStore(r, store)
    ensures forall k :: k in r ==> r[k].status == Some(status)
    ensures forall k :: k in store && store[k].status == Some(status) ==> k in r
  {
    map k | k in store && store[k].status == Some(status) :: store[k]
  }

  /** The search predicate `name LIKE %term% OR description LIKE %term%`. */
  predicate Matches(e: Entity, term: string) {
    ColumnContains(e.name, term) || ColumnContains(e.description, term)
  }

  /** `search`: exactly the rows whose name or description contains `term`. */
  function Search(store: Store, term: string): (r: Store)
    ensures IsSubStore(r, store)
    ensures forall k :: k in r ==> Matches(r[k], term)
    ensures forall k :: k in store && Matches(store[k], term) ==> k in r
  {
    map k | k in store && Matches(store[k], term) :: store[k]
  }

  /** `save`: the row is stored under its id, replacing any row already there. */
  function Save(store: Store, e: Entity): (r: Store)
    requires WellKeyed(store)
    ensures WellKeyed(r)
    ensures FindById(r, e.id) == Some(e)
    ensures forall k :: k != e.id ==> FindById(r, k) == FindById(store, k)
  {
    store[e.id := e]
  }

  /** `delete`: the row with the entity's id is removed and no other. */
  function Delete(store: Store, e: Entity): (r: Store)
    requires WellKeyed(store)
    ensures WellKeyed(r)
    ensures FindById(r, e.id) == None
    ensures forall k :: k != e.id ==> FindById(r, k) == FindById(store, k)
  {
    store - {e.id}
  }

  /**
   * `existsByName` holds exactly when `findByName` does not come back empty
   * (it either finds the one row or fails because the name is shared).
   */
  lemma ExistsByNameIffFound(store: Store, name: string)
    ensures ExistsByName(store, name) <==> !FindByName(store, name).Absent?
  {
    if ExistsByName(store, name) {
      var k :| k in store && store[k].name == Some(name);
      assert store[k].name != None;
    }
  }

  /** `existsByName` is membership of the exact name among the stored names: nothing is trimmed or folded. */
  lemma ExistsByNameIsExact(store: Store, name: string)
    ensures ExistsByName(store, name) <==> name in Names(store)
  {
    if name in Names(store) {
      var k :| k in store && store[k].name.Some? && store[k].name.value == name;
      assert store[k].name == Some(name);
    }
  }

  /** A stored "A" makes `existsByName("A")` true and `existsByName(" A")` false. */
  lemma ExistsByNameDoesNotTrim()
    ensures ExistsByName(map[1 := Entity(1, Some("A"), None, None)], "A")
    ensures !ExistsByName(map[1 := Entity(1, Some("A"), None, None)], " A")
  {
    var store := map[1 := Entity(1, Some("A"), None, None)];
    assert store[1].name == Some("A");
    assert "A" != " A" by { assert |"A"| != |" A"|; }
  }

  /** No row is returned for two different statuses. */
  lemma FindByStatusDisjoint(store: Store, a: string, b: string)
    requires a != b
    ensures FindByStatus(store, a).Keys !! FindByStatus(store, b).Keys
  {
  }

  /** Lengthening the search term can only narrow the result. */
  lemma SearchNarrows(store: Store, t: string, u: string)
    ensures IsSubStore(Search(store, t + u), store)
    ensures Search(store, t + u).Keys <= Search(store, t).Keys
  {
    forall k | k in Search(store, t + u) ensures k in Search(store, t) {
      var e := store[k];
      if ColumnContains(e.name, t + u) {
        ContainsPrefixOfTerm(e.name.value, t, u);
      } else {
        ContainsPrefixOfTerm(e.description.value, t, u);
      }
    }
  }

  /** A row that is saved can be found by its id, with the name it was saved with. */
  lemma SaveThenFind(store: Store, e: Entity)
    requires WellKeyed(store)
    ensures FindById(Save(store, e), e.id).Some?
    ensures FindById(Save(store, e), e.id).value.name == e.name
  {
  }

  /** One ACTIVE and one INACTIVE row: filtering by ACTIVE yields exactly the ACTIVE one. */
  lemma FindByStatusSelectsActive(active: Entity, inactive: Entity)
    requires active.id != inactive.id
    requires active.status == Some("ACTIVE") && inactive.status == Some("INACTIVE")
    ensures FindByStatus(map[active.id := active, inactive.id := inactive], "ACTIVE")
         == map[active.id := active]
  {
    var store := map[active.id := active, inactive.id := inactive];
    assert "ACTIVE" != "INACTIVE" by { assert |"ACTIVE"| != |"INACTIVE"|; }
    assert FindByStatus(store, "ACTIVE").Keys == {active.id};
  }
}
