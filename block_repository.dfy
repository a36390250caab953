/** BlockRepository: the name checks the callers make before a write. The
    block list is BlockDao.BlocksBySite, and the writes pass straight through
    to BlockDao. */
module BlockRepository {
  import opened Entities
  import opened Database
  import opened BlockDao

  /** isBlockNameExists: some block of the site has exactly this name. */
  function IsBlockNameExists(db: Db, siteId: nat, name: string): (r: bool)
    ensures r <==> exists b :: b in db.blocks.rows.Values && b.siteId == siteId && b.name == name
  {
    BlockCountBySiteAndName(db, siteId, name) > 0
  }

  /** isBlockNameExistsForUpdate: some block of the site other than `excludeId` has this name. */
  function IsBlockNameExistsForUpdate(db: Db, siteId: nat, name: string, excludeId: nat): (r: bool)
    ensures r <==> exists b :: b in db.blocks.rows.Values && b.siteId == siteId && b.name == name && b.id != excludeId
  {
    BlockCountBySiteAndNameExcludingId(db, siteId, name, excludeId) > 0
  }

  /** The for-update check implies the plain one and ignores the excluded block. */
  lemma BlockForUpdateCheck(db: Db, siteId: nat, name: string, excludeId: nat)
    ensures IsBlockNameExistsForUpdate(db, siteId, name, excludeId) ==> IsBlockNameExists(db, siteId, name)
    ensures !IsBlockNameExistsForUpdate(db, siteId, name, excludeId) <==>
      forall b :: b in db.blocks.rows.Values && b.siteId == siteId && b.name == name ==> b.id == excludeId
  {
  }

  /** The store itself accepts a second block of an existing name in a site. */
  lemma DuplicateBlockAccepted(db: Db, block: Block)
    requires db.Valid()
    requires block.id == UNASSIGNED && block.siteId in db.sites.rows
    requires IsBlockNameExists(db, block.siteId, block.name)
    ensures InsertBlock(db, block).Done?
    ensures BlockCountBySiteAndName(InsertBlock(db, block).value.db, block.siteId, block.name) >= 2
  {
    InsertBlockThenListed(db, block);
  }
}
