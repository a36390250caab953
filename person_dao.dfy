/** The queries and writes of the `people` table (PersonDao). */
module PersonDao {
  import opened Entities
  import opened Options
  import opened Tables
  import opened Ordering
  import opened Database

  /** ORDER BY created_at ASC. */
  function OldestFirst(p: Person): SortKey {
    SortKey(p.createdAt, 0, p.id)
  }

  /** getPeopleByBlockId / observePeopleByBlockId: the people of one block, oldest first. */
  function PeopleByBlock(db: Db, blockId: nat): (r: seq<Person>)
    ensures forall p :: p in r <==> p in db.people.rows.Values && p.blockId == blockId
    ensures |r| == |set k | k in db.people.rows && db.people.rows[k].blockId == blockId|
    ensures forall i, j :: 0 <= i < j < |r| ==> r[i].createdAt <= r[j].createdAt
  {
    var all := Where(db.people, (p: Person) => p.blockId == blockId);
    assert KeysWhere(db.people, (p: Person) => p.blockId == blockId)
      == set k | k in db.people.rows && db.people.rows[k].blockId == blockId;
    SortByMembers(all, OldestFirst);
    SortBy(all, OldestFirst)
  }

  /** getPersonById: the person stored under that id, if any. */
  function PersonById(db: Db, personId: nat): (r: Option<Person>)
    ensures r.Some? ==> r.value in db.people.rows.Values && r.value.id == personId
    ensures db.IdsMatch() ==> (r.Some? <==> personId in db.people.rows)
    ensures db.IdsMatch() && r.Some? ==> r.value == db.people.rows[personId]
  {
    assert personId in db.people.rows ==> db.people.rows[personId] in db.people.rows.Values;
    FirstWhere(db.people, (p: Person) => p.id == personId)
  }

  /** getPersonByBlockAndName: some person of the block with that name, if any. */
  function PersonByBlockAndName(db: Db, blockId: nat, name: string): (r: Option<Person>)
    ensures r.Some? ==> r.value in db.people.rows.Values && r.value.blockId == blockId && r.value.name == name
    ensures r.None? <==> forall p :: p in db.people.rows.Values ==> !(p.blockId == blockId && p.name == name)
  {
    FirstWhere(db.people, (p: Person) => p.blockId == blockId && p.name == name)
  }

  /** The ids of the people of `blockId` named `name`. */
  ghost function PeopleNamed(db: Db, blockId: nat, name: string): set<nat> {
    set k | k in db.people.rows && db.people.rows[k].blockId == blockId && db.people.rows[k].name == name
  }

  /** getPersonCountByBlockAndName: the count is scoped to the block. */
  function PersonCountByBlockAndName(db: Db, blockId: nat, name: string): (n: nat)
    ensures n == |PeopleNamed(db, blockId, name)|
    ensures n > 0 <==> exists p :: p in db.people.rows.Values && p.blockId == blockId && p.name == name
  {
    assert KeysWhere(db.people, (p: Person) => p.blockId == blockId && p.name == name) == PeopleNamed(db, blockId, name);
    CountWhere(db.people, (p: Person) => p.blockId == blockId && p.name == name)
  }

  /** getPersonCountByBlockAndNameExcludingId: the same count, ignoring the row `excludeId`. */
  function PersonCountByBlockAndNameExcludingId(db: Db, blockId: nat, name: string, excludeId: nat): (n: nat)
    ensures n == |PeopleNamed(db, blockId, name) - {excludeId}| <== db.IdsMatch()
    ensures n > 0 <==> exists p :: p in db.people.rows.Values && p.blockId == blockId && p.name == name && p.id != excludeId
  {
    assert db.IdsMatch() ==>
      KeysWhere(db.people, (p: Person) => p.blockId == blockId && p.name == name && p.id != excludeId)
      == PeopleNamed(db, blockId, name) - {excludeId};
    CountWhere(db.people, (p: Person) => p.blockId == blockId && p.name == name && p.id != excludeId)
  }

  /** The excluding count is the plain count or one less. */
  lemma PersonCountExcludingBounds(db: Db, blockId: nat, name: string, excludeId: nat)
    requires db.Valid()
    ensures PersonCountByBlockAndNameExcludingId(db, blockId, name, excludeId) <= PersonCountByBlockAndName(db, blockId, name)
    ensures PersonCountByBlockAndName(db, blockId, name) <= PersonCountByBlockAndNameExcludingId(db, blockId, name, excludeId) + 1
  {
    CountExcludingBounds(db.people, (p: Person) => p.blockId == blockId && p.name == name,
      (p: Person) => p.blockId == blockId && p.name == name && p.id != excludeId, excludeId);
  }

  /** insertPerson: stores the row under a fresh id (or the unused id it carries);
      the block it names must exist. */
  function InsertPerson(db: Db, person: Person): (r: Outcome<Inserted>)
    ensures r == Failed(UniqueViolation) <==> person.id != UNASSIGNED && person.id in db.people.rows
    ensures r == Failed(ForeignKeyViolation) <==>
      (person.id == UNASSIGNED || person.id !in db.people.rows) && person.blockId !in db.blocks.rows
    ensures r.Done? ==>
      && r.value.id !in db.people.rows
      && (person.id != UNASSIGNED ==> r.value.id == person.id)
      && r.value.db.people.rows == db.people.rows[r.value.id := person.(id := r.value.id)]
      && r.value.db == db.(people := r.value.db.people)
  {
    var id := AssignedId(db.people, person.id);
    if id in db.people.rows then Failed(UniqueViolation)
    else if person.blockId !in db.blocks.rows then Failed(ForeignKeyViolation)
    else Done(Inserted(db.(people := Put(db.people, id, person.(id := id))), id))
  }

  /** updatePerson: replaces the row with the same id, if there is one; the
      block it names must exist. */
  function UpdatePerson(db: Db, person: Person): (r: Outcome<Db>)
    ensures person.id !in db.people.rows ==> r == Done(db)
    ensures r.Failed? <==> person.id in db.people.rows && person.blockId !in db.blocks.rows
    ensures r.Failed? ==> r.error == ForeignKeyViolation
    ensures r.Done? && person.id in db.people.rows ==>
      r.value.people.rows == db.people.rows[person.id := person] && r.value == db.(people := r.value.people)
  {
    if person.id !in db.people.rows then Done(db)
    else if person.blockId !in db.blocks.rows then Failed(ForeignKeyViolation)
    else Done(db.(people := Put(db.people, person.id, person)))
  }

  /** deletePerson: removes the person and, by cascade, that person's payments. */
  function DeletePerson(db: Db, id: nat): (r: Db)
    ensures forall k :: k in r.people.rows ==> r.people.rows[k].id != id
    ensures forall k :: k in db.people.rows && db.people.rows[k].id != id ==> k in r.people.rows && r.people.rows[k] == db.people.rows[k]
  {
    DeletePeople(db, {id})
  }

  lemma InsertPersonKeepsValid(db: Db, person: Person)
    requires db.Valid()
    ensures InsertPerson(db, person).Done? ==> InsertPerson(db, person).value.db.Valid()
  {
  }

  /** The new person is listed for the block and no payment refers to them;
      the insert adds one person of that name to the block. */
  lemma InsertPersonThenListed(db: Db, person: Person)
    requires db.Valid()
    requires InsertPerson(db, person).Done?
    ensures var ins := InsertPerson(db, person).value;
      person.(id := ins.id) in PeopleByBlock(ins.db, person.blockId)
    ensures var ins := InsertPerson(db, person).value;
      forall pay :: pay in ins.db.payments.rows.Values ==> pay.personId != ins.id
    ensures var ins := InsertPerson(db, person).value;
      PersonCountByBlockAndName(ins.db, person.blockId, person.name) == PersonCountByBlockAndName(db, person.blockId, person.name) + 1
  {
    var ins := InsertPerson(db, person).value;
    assert ins.db.people.rows[ins.id] in ins.db.people.rows.Values;
    InsertedPersonNamed(db, ins.db, ins.id, person.(id := ins.id));
  }

  /** Adding a row under a fresh id adds that id, and only it, to the ids of its block and name. */
  lemma InsertedPersonNamed(db: Db, after: Db, id: nat, person: Person)
    requires id !in db.people.rows
    requires after.people.rows == db.people.rows[id := person]
    ensures PeopleNamed(after, person.blockId, person.name) == PeopleNamed(db, person.blockId, person.name) + {id}
    ensures |PeopleNamed(after, person.blockId, person.name)| == |PeopleNamed(db, person.blockId, person.name)| + 1
  {
    var before := PeopleNamed(db, person.blockId, person.name);
    assert PeopleNamed(after, person.blockId, person.name) == before + {id};
    assert id !in before;
  }

  lemma UpdatePersonKeepsValid(db: Db, person: Person)
    requires db.Valid()
    ensures UpdatePerson(db, person).Done? ==> UpdatePerson(db, person).value.Valid()
  {
  }

  /** Deleting a person removes that person's payments and nothing else. */
  lemma DeletePersonCascade(db: Db, id: nat)
    requires db.Valid()
    ensures DeletePerson(db, id).Valid()
    ensures forall pay :: pay in DeletePerson(db, id).payments.rows.Values ==> pay.personId != id
    ensures forall k :: k in db.payments.rows && db.payments.rows[k].personId != id ==>
      k in DeletePerson(db, id).payments.rows
    ensures DeletePerson(db, id).sites == db.sites && DeletePerson(db, id).months == db.months
    ensures DeletePerson(db, id).blocks == db.blocks
  {
    DeletePeopleKeepsValid(db, {id});
  }
}
