/** The generic CRUD service shared by every resource type: a keyed table of
    records with existence checks, validated save, update by property copy,
    deletion and creation. The document repository behind it is a map from
    identifier to record. */
module CrudService {
  import opened Wrappers

  /** The fixed error codes carried by `IllegalArgumentException`. */
  const DOESNT_EXISTS: string := "ERR:RESOURCE:01"
  const EXISTS: string := "ERR:RESOURCE:02"
  const NEEDS_ID: string := "ERR:RESOURCE:03"

  /** The exceptions the service lets escape; `V` is the type of one constraint
      violation reported by the validator. */
  datatype Fault<V> =
    | IllegalArgument(message: string)        // IllegalArgumentException(code)
    | ConstraintViolation(violations: set<V>) // ConstraintViolationException(all violations)
    | NoSuchElement                           // Optional.get() on an empty Optional
    | UnsupportedOperation                    // buildId() of a resource without generated ids

  /** How a resource type produces fresh identifiers (`buildId`). A generator is
      given a seed standing for whatever source of novelty it draws on. */
  datatype IdStrategy<ID> = NoIdGeneration | Generator(next: nat -> ID)

  /** What each concrete resource type supplies to the generic service. */
  datatype Resource<!ID, !T, V> = Resource(
    idOf: T -> ID,                   // the identifier property the repository keys by
    validator: T -> Option<set<V>>,  // Validator.validate; None stands for a null answer
    copyProperties: (T, T) -> T,     // BeanUtils.copyProperties(source, target): the updated target
    buildElement: ID -> T,           // buildElement(id)
    buildId: IdStrategy<ID>)         // buildId()

  /** The answer of a call together with the table it leaves behind. */
  datatype Step<R, ID, T, V> = Step(result: Result<R, Fault<V>>, table: map<ID, T>)

  /** Every record is stored under its own identifier. */
  ghost predicate WellKeyed<ID, T>(idOf: T -> ID, table: map<ID, T>)
  {
    forall id :: id in table ==> idOf(table[id]) == id
  }

  /** `findById(id).orElse(null)`. */
  function Lookup<ID, T>(table: map<ID, T>, id: ID): Option<T>
  {
    if id in table then Some(table[id]) else None
  }

  /** `validate(element)`: a null or empty set of violations is valid; otherwise
      the call throws with every violation found. */
  function Validate<ID, T, V>(res: Resource<ID, T, V>, e: T): (o: Outcome<Fault<V>>)
    ensures o.Pass? <==> res.validator(e) in {None, Some({})}
    ensures o.Fail? ==> o.error == ConstraintViolation(res.validator(e).value)
  {
    match res.validator(e)
    case None => Pass
    case Some(violations) => if violations == {} then Pass else Fail(ConstraintViolation(violations))
  }

  /** `save(element)`: validate, then upsert under the element's identifier. */
  function SaveStep<ID, T, V>(res: Resource<ID, T, V>, table: map<ID, T>, e: T): Step<T, ID, T, V>
  {
    match Validate(res, e)
    case Fail(f) => Step(Err(f), table)
    case Pass => Step(Ok(e), table[res.idOf(e) := e])
  }

  /** `update(id, element)`: fetch the record (failing when there is none), copy
      the incoming properties onto it, validate and save the result. */
  function UpdateStep<ID, T, V>(res: Resource<ID, T, V>, table: map<ID, T>, id: ID, e: T): Step<T, ID, T, V>
  {
    match Lookup(table, id)
    case None => Step(Err(NoSuchElement), table)
    case Some(previous) =>
      var merged := res.copyProperties(e, previous);
      match Validate(res, merged)
      case Fail(f) => Step(Err(f), table)
      case Pass => Step(Ok(merged), table[res.idOf(merged) := merged])
  }

  /** `deleteById(id)`: nothing happens when the identifier is absent. */
  function DeleteStep<ID, T>(table: map<ID, T>, id: ID): map<ID, T>
  {
    table - {id}
  }

  /** `create(id)`: save the resource's default element for `id`. */
  function CreateStep<ID, T, V>(res: Resource<ID, T, V>, table: map<ID, T>, id: ID): Step<T, ID, T, V>
  {
    SaveStep(res, table, res.buildElement(id))
  }

  /** `buildId()`: fails for a resource that does not generate identifiers. */
  function BuildId<ID, T, V>(res: Resource<ID, T, V>, seed: nat): (r: Result<ID, Fault<V>>)
    ensures r.Err? <==> res.buildId.NoIdGeneration?
    ensures r.Err? ==> r.error == UnsupportedOperation
  {
    match res.buildId
    case NoIdGeneration => Err(UnsupportedOperation)
    case Generator(next) => Ok(next(seed))
  }

  /** `create()`: `create(buildId())`. */
  function CreateGeneratedStep<ID, T, V>(res: Resource<ID, T, V>, table: map<ID, T>, seed: nat): Step<T, ID, T, V>
  {
    match BuildId(res, seed)
    case Err(f) => Step(Err(f), table)
    case Ok(id) => CreateStep(res, table, id)
  }

  /** The service of one resource type over its repository table. */
  class Service<ID(==), T(==), V(==)> {
    const res: Resource<ID, T, V>
    var table: map<ID, T>

    ghost predicate Valid()
      reads this
    {
      WellKeyed(res.idOf, table)
    }

    constructor (res: Resource<ID, T, V>)
      ensures Valid() && this.res == res && table == map[]
    {
      this.res := res;
      table := map[];
    }

    /** `find(id)`: the stored record, or null on a miss. */
    method Find(id: ID) returns (r: Option<T>)
      ensures r.Some? <==> id in table
      ensures r.Some? ==> r.value == table[id]
    {
      r := Lookup(table, id);
    }

    /** `exists(id)`: `find(id) != null`. */
    method Exists(id: ID) returns (b: bool)
      ensures b <==> id in table
    {
      var found := Find(id);
      b := found.Some?;
    }

    /** `checkExists(id)`: throws DOESNT_EXISTS when there is no record. */
    method CheckExists(id: ID) returns (o: Outcome<Fault<V>>)
      ensures id !in table <==> o == Fail(IllegalArgument(DOESNT_EXISTS))
      ensures id in table <==> o == Pass
    {
      var present := Exists(id);
      if !present {
        return Fail(IllegalArgument(DOESNT_EXISTS));
      }
      o := Pass;
    }

    /** `checkDoesntExists(id)`: throws EXISTS when there is a record. */
    method CheckDoesntExists(id: ID) returns (o: Outcome<Fault<V>>)
      ensures id in table <==> o == Fail(IllegalArgument(EXISTS))
      ensures id !in table <==> o == Pass
    {
      var present := Exists(id);
      if present {
        return Fail(IllegalArgument(EXISTS));
      }
      o := Pass;
    }

    /** `findAll()`: exactly the stored records, one per identifier. */
    method FindAll() returns (all: set<T>)
      requires Valid()
      ensures forall x :: x in all <==> exists id :: id in table && table[id] == x
      ensures |all| == |table|
    {
      all := table.Values;
      RecordsCount(res.idOf, table);
    }

    /** `save(element)`. */
    method Save(e: T) returns (r: Result<T, Fault<V>>)
      requires Valid()
      modifies this
      ensures Valid()
      ensures Step(r, table) == SaveStep(res, old(table), e)
    {
      var o := Validate(res, e);
      if o.Fail? {
        return Err(o.error);
      }
      table := table[res.idOf(e) := e];
      r := Ok(e);
    }

    /** `update(id, element)`. */
    method Update(id: ID, e: T) returns (r: Result<T, Fault<V>>)
      requires Valid()
      modifies this
      ensures Valid()
      ensures Step(r, table) == UpdateStep(res, old(table), id, e)
    {
      var found := Lookup(table, id);
      if found.None? {
        return Err(NoSuchElement);
      }
      var merged := res.copyProperties(e, found.value);
      var o := Validate(res, merged);
      if o.Fail? {
        return Err(o.error);
      }
      table := table[res.idOf(merged) := merged];
      r := Ok(merged);
    }

    /** `delete(element)`: removes the record stored under the element's identifier. */
    method Delete(e: T)
      requires Valid()
      modifies this
      ensures Valid()
      ensures table == DeleteStep(old(table), res.idOf(e))
    {
      table := table - {res.idOf(e)};
    }

    /** `delete(id)`. */
    method DeleteById(id: ID)
      requires Valid()
      modifies this
      ensures Valid()
      ensures table == DeleteStep(old(table), id)
    {
      table := table - {id};
    }

    /** `create(id)`: `save(buildElement(id))`. */
    method Create(id: ID) returns (r: Result<T, Fault<V>>)
      requires Valid()
      modifies this
      ensures Valid()
      ensures Step(r, table) == CreateStep(res, old(table), id)
    {
      r := Save(res.buildElement(id));
    }

    /** `create()`: `create(buildId())`. */
    method CreateGenerated(seed: nat) returns (r: Result<T, Fault<V>>)
      requires Valid()
      modifies this
      ensures Valid()
      ensures Step(r, table) == CreateGeneratedStep(res, old(table), seed)
    {
      var id := BuildId(res, seed);
      if id.Err? {
        return Err(id.error);
      }
      r := Create(id.value);
    }
  }

  // ---------------------------------------------------------------------------
  // Properties of the table operations

  /** A well-keyed table holds as many distinct records as identifiers. */
  lemma {:induction false} RecordsCount<ID, T>(idOf: T -> ID, table: map<ID, T>)
    requires WellKeyed(idOf, table)
    ensures |table.Values| == |table|
  {
    if table != map[] {
      var k :| k in table;
      var rest := table - {k};
      assert WellKeyed(idOf, rest);
      RecordsCount(idOf, rest);
      assert table[k] !in rest.Values;
      assert table.Values == rest.Values + {table[k]} by {
        forall x | x in table.Values ensures x in rest.Values + {table[k]} {
          var j :| j in table && table[j] == x;
          if j != k { assert rest[j] == x; }
        }
      }
      assert table.Keys == rest.Keys + {k};
    }
  }

  /** A failed validation leaves the table untouched and reports every violation. */
  lemma SaveRejectsInvalid<ID, T, V>(res: Resource<ID, T, V>, table: map<ID, T>, e: T, violations: set<V>)
    requires res.validator(e) == Some(violations) && violations != {}
    ensures SaveStep(res, table, e) == Step(Err(ConstraintViolation(violations)), table)
  {
  }

  /** A valid element is returned as given and afterwards found under its
      identifier; every other record is unchanged and the table stays well keyed. */
  lemma SaveThenFind<ID, T, V>(res: Resource<ID, T, V>, table: map<ID, T>, e: T)
    requires WellKeyed(res.idOf, table)
    requires res.validator(e) in {None, Some({})}
    ensures SaveStep(res, table, e).result == Ok(e)
    ensures Lookup(SaveStep(res, table, e).table, res.idOf(e)) == Some(e)
    ensures forall id :: id != res.idOf(e) ==> Lookup(SaveStep(res, table, e).table, id) == Lookup(table, id)
    ensures WellKeyed(res.idOf, SaveStep(res, table, e).table)
  {
  }

  /** Saving a new element and then deleting it by identifier restores the table. */
  lemma SaveThenDeleteRestores<ID, T, V>(res: Resource<ID, T, V>, table: map<ID, T>, e: T)
    requires res.idOf(e) !in table
    ensures DeleteStep(SaveStep(res, table, e).table, res.idOf(e)) == table
  {
  }

  /** Once saved, a record is among the records `findAll` reports. */
  lemma SaveThenFindAll<ID, T, V>(res: Resource<ID, T, V>, table: map<ID, T>, e: T)
    requires res.validator(e) in {None, Some({})}
    ensures e in SaveStep(res, table, e).table.Values
  {
    assert SaveStep(res, table, e).table[res.idOf(e)] == e;
  }

  /** Updating an absent identifier fails and leaves the table untouched. */
  lemma UpdateMissing<ID, T, V>(res: Resource<ID, T, V>, table: map<ID, T>, id: ID, e: T)
    requires id !in table
    ensures UpdateStep(res, table, id, e) == Step(Err(NoSuchElement), table)
  {
  }

  /** On a present identifier, update is save of the incoming element copied onto
      the stored record. */
  lemma UpdateIsSaveOfMerged<ID, T, V>(res: Resource<ID, T, V>, table: map<ID, T>, id: ID, e: T)
    requires id in table
    ensures UpdateStep(res, table, id, e) == SaveStep(res, table, res.copyProperties(e, table[id]))
  {
  }

  /** When copying every property of the incoming element yields that element,
      as it does for a complete element, a valid update returns the incoming
      element and replaces exactly the record under `id`. */
  lemma UpdateWithFullCopy<ID, T, V>(res: Resource<ID, T, V>, table: map<ID, T>, id: ID, e: T)
    requires id in table && res.idOf(e) == id
    requires res.copyProperties(e, table[id]) == e
    requires res.validator(e) in {None, Some({})}
    ensures UpdateStep(res, table, id, e) == Step(Ok(e), table[id := e])
    ensures UpdateStep(res, table, id, e).table.Keys == table.Keys
  {
  }

  /** An update whose merged record fails validation changes nothing. */
  lemma UpdateRejectsInvalid<ID, T, V>(res: Resource<ID, T, V>, table: map<ID, T>, id: ID, e: T, violations: set<V>)
    requires id in table
    requires res.validator(res.copyProperties(e, table[id])) == Some(violations) && violations != {}
    ensures UpdateStep(res, table, id, e) == Step(Err(ConstraintViolation(violations)), table)
  {
  }

  /** After a deletion the identifier is gone, every other record is untouched,
      and deleting again changes nothing. */
  lemma DeleteRemovesOnlyThat<ID, T>(idOf: T -> ID, table: map<ID, T>, id: ID)
    requires WellKeyed(idOf, table)
    ensures Lookup(DeleteStep(table, id), id) == None
    ensures forall other :: other != id ==> Lookup(DeleteStep(table, id), other) == Lookup(table, other)
    ensures DeleteStep(DeleteStep(table, id), id) == DeleteStep(table, id)
    ensures WellKeyed(idOf, DeleteStep(table, id))
  {
  }

  /** Deleting a stored record removes it from what `findAll` reports. */
  lemma DeleteThenFindAll<ID, T>(idOf: T -> ID, table: map<ID, T>, e: T)
    requires WellKeyed(idOf, table)
    ensures e !in DeleteStep(table, idOf(e)).Values
  {
  }

  /** Creation from an identifier stores and returns the default element built
      for it, when that element is valid. */
  lemma CreateStoresBuiltElement<ID, T, V>(res: Resource<ID, T, V>, table: map<ID, T>, id: ID)
    requires res.validator(res.buildElement(id)) in {None, Some({})}
    ensures CreateStep(res, table, id).result == Ok(res.buildElement(id))
    ensures Lookup(CreateStep(res, table, id).table, res.idOf(res.buildElement(id))) == Some(res.buildElement(id))
  {
  }

  /** `create()` on a resource without generated identifiers fails with an
      unsupported operation and stores nothing. */
  lemma CreateWithoutIdGeneration<ID, T, V>(res: Resource<ID, T, V>, table: map<ID, T>, seed: nat)
    requires res.buildId == NoIdGeneration
    ensures CreateGeneratedStep(res, table, seed) == Step(Err(UnsupportedOperation), table)
  {
  }

  /** `create()` on a resource that generates identifiers is `create(id)` of the
      identifier generated. */
  lemma CreateGeneratedDelegates<ID, T, V>(res: Resource<ID, T, V>, table: map<ID, T>, seed: nat)
    requires res.buildId.Generator?
    ensures CreateGeneratedStep(res, table, seed) == CreateStep(res, table, res.buildId.next(seed))
  {
  }
}
