/** PersonRepository: the name checks the callers make before a write. The
    writes pass straight through to PersonDao. */
module PersonRepository {
  import opened Entities
  import opened Database
  import opened PersonDao

  /** isPersonNameExists: some person of the block has exactly this name. */
  function IsPersonNameExists(db: Db, blockId: nat, name: string): (r: bool)
    ensures r <==> exists p :: p in db.people.rows.Values && p.blockId == blockId && p.name == name
  {
    PersonCountByBlockAndName(db, blockId, name) > 0
  }

  /** isPersonNameExistsForUpdate: some person of the block other than `excludeId` has this name. */
  function IsPersonNameExistsForUpdate(db: Db, blockId: nat, name: string, excludeId: nat): (r: bool)
    ensures r <==> exists p :: p in db.people.rows.Values && p.blockId == blockId && p.name == name && p.id != excludeId
  {
    PersonCountByBlockAndNameExcludingId(db, blockId, name, excludeId) > 0
  }

  /** The for-update check implies the plain one and ignores the excluded person. */
  lemma PersonForUpdateCheck(db: Db, blockId: nat, name: string, excludeId: nat)
    ensures IsPersonNameExistsForUpdate(db, blockId, name, excludeId) ==> IsPersonNameExists(db, blockId, name)
    ensures !IsPersonNameExistsForUpdate(db, blockId, name, excludeId) <==>
      forall p :: p in db.people.rows.Values && p.blockId == blockId && p.name == name ==> p.id == excludeId
  {
  }

  /** The store itself accepts a second person of an existing name in a block. */
  lemma DuplicatePersonAccepted(db: Db, person: Person)
    requires db.Valid()
    requires person.id == UNASSIGNED && person.blockId in db.blocks.rows
    requires IsPersonNameExists(db, person.blockId, person.name)
    ensures InsertPerson(db, person).Done?
    ensures PersonCountByBlockAndName(InsertPerson(db, person).value.db, person.blockId, person.name) >= 2
  {
    InsertPersonThenListed(db, person);
  }
}
