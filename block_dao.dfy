/** The queries and writes of the `blocks` table (BlockDao). */
module BlockDao {
  import opened Entities
  import opened Options
  import opened Tables
  import opened Ordering
  import opened Database

  /** ORDER BY created_at ASC. */
  function OldestFirst(b: Block): SortKey {
    SortKey(b.createdAt, 0, b.id)
  }

  /** getBlocksBySiteId: the blocks of one site, oldest first. */
  function BlocksBySite(db: Db, siteId: nat): (r: seq<Block>)
    ensures forall b :: b in r <==> b in db.blocks.rows.Values && b.siteId == siteId
    ensures |r| == |set k | k in db.blocks.rows && db.blocks.rows[k].siteId == siteId|
    ensures forall i, j :: 0 <= i < j < |r| ==> r[i].createdAt <= r[j].createdAt
  {
    var all := Where(db.blocks, (b: Block) => b.siteId == siteId);
    assert KeysWhere(db.blocks, (b: Block) => b.siteId == siteId)
      == set k | k in db.blocks.rows && db.blocks.rows[k].siteId == siteId;
    SortByMembers(all, OldestFirst);
    SortBy(all, OldestFirst)
  }

  /** getBlockBySiteAndName: some block of the site with that name, if any. */
  function BlockBySiteAndName(db: Db, siteId: nat, name: string): (r: Option<Block>)
    ensures r.Some? ==> r.value in db.blocks.rows.Values && r.value.siteId == siteId && r.value.name == name
    ensures r.None? <==> forall b :: b in db.blocks.rows.Values ==> !(b.siteId == siteId && b.name == name)
  {
    FirstWhere(db.blocks, (b: Block) => b.siteId == siteId && b.name == name)
  }

  /** The ids of the blocks of `siteId` named `name`. */
  ghost function BlocksNamed(db: Db, siteId: nat, name: string): set<nat> {
    set k | k in db.blocks.rows && db.blocks.rows[k].siteId == siteId && db.blocks.rows[k].name == name
  }

  /** getBlockCountBySiteAndName: the count is scoped to the site. */
  function BlockCountBySiteAndName(db: Db, siteId: nat, name: string): (n: nat)
    ensures n == |BlocksNamed(db, siteId, name)|
    ensures n > 0 <==> exists b :: b in db.blocks.rows.Values && b.siteId == siteId && b.name == name
  {
    assert KeysWhere(db.blocks, (b: Block) => b.siteId == siteId && b.name == name) == BlocksNamed(db, siteId, name);
    CountWhere(db.blocks, (b: Block) => b.siteId == siteId && b.name == name)
  }

  /** getBlockCountBySiteAndNameExcludingId: the same count, ignoring the row `excludeId`. */
  function BlockCountBySiteAndNameExcludingId(db: Db, siteId: nat, name: string, excludeId: nat): (n: nat)
    ensures n == |BlocksNamed(db, siteId, name) - {excludeId}| <== db.IdsMatch()
    ensures n > 0 <==> exists b :: b in db.blocks.rows.Values && b.siteId == siteId && b.name == name && b.id != excludeId
  {
    assert db.IdsMatch() ==>
      KeysWhere(db.blocks, (b: Block) => b.siteId == siteId && b.name == name && b.id != excludeId)
      == BlocksNamed(db, siteId, name) - {excludeId};
    CountWhere(db.blocks, (b: Block) => b.siteId == siteId && b.name == name && b.id != excludeId)
  }

  /** The excluding count is the plain count or one less. */
  lemma BlockCountExcludingBounds(db: Db, siteId: nat, name: string, excludeId: nat)
    requires db.Valid()
    ensures BlockCountBySiteAndNameExcludingId(db, siteId, name, excludeId) <= BlockCountBySiteAndName(db, siteId, name)
    ensures BlockCountBySiteAndName(db, siteId, name) <= BlockCountBySiteAndNameExcludingId(db, siteId, name, excludeId) + 1
  {
    CountExcludingBounds(db.blocks, (b: Block) => b.siteId == siteId && b.name == name,
      (b: Block) => b.siteId == siteId && b.name == name && b.id != excludeId, excludeId);
  }

  /** insertBlock: stores the row under a fresh id (or the unused id it carries);
      the site it names must exist. */
  function InsertBlock(db: Db, block: Block): (r: Outcome<Inserted>)
    ensures r == Failed(UniqueViolation) <==> block.id != UNASSIGNED && block.id in db.blocks.rows
    ensures r == Failed(ForeignKeyViolation) <==>
      (block.id == UNASSIGNED || block.id !in db.blocks.rows) && block.siteId !in db.sites.rows
    ensures r.Done? ==>
      && r.value.id !in db.blocks.rows
      && (block.id != UNASSIGNED ==> r.value.id == block.id)
      && r.value.db.blocks.rows == db.blocks.rows[r.value.id := block.(id := r.value.id)]
      && r.value.db == db.(blocks := r.value.db.blocks)
  {
    var id := AssignedId(db.blocks, block.id);
    if id in db.blocks.rows then Failed(UniqueViolation)
    else if block.siteId !in db.sites.rows then Failed(ForeignKeyViolation)
    else Done(Inserted(db.(blocks := Put(db.blocks, id, block.(id := id))), id))
  }

  /** updateBlock: replaces the row with the same id, if there is one; the
      site it names must exist. */
  function UpdateBlock(db: Db, block: Block): (r: Outcome<Db>)
    ensures block.id !in db.blocks.rows ==> r == Done(db)
    ensures r.Failed? <==> block.id in db.blocks.rows && block.siteId !in db.sites.rows
    ensures r.Failed? ==> r.error == ForeignKeyViolation
    ensures r.Done? && block.id in db.blocks.rows ==>
      r.value.blocks.rows == db.blocks.rows[block.id := block] && r.value == db.(blocks := r.value.blocks)
  {
    if block.id !in db.blocks.rows then Done(db)
    else if block.siteId !in db.sites.rows then Failed(ForeignKeyViolation)
    else Done(db.(blocks := Put(db.blocks, block.id, block)))
  }

  /** deleteBlock: removes the block and, by cascade, its people and their payments. */
  function DeleteBlock(db: Db, id: nat): (r: Db)
    ensures forall k :: k in r.blocks.rows ==> r.blocks.rows[k].id != id
    ensures forall k :: k in db.blocks.rows && db.blocks.rows[k].id != id ==> k in r.blocks.rows && r.blocks.rows[k] == db.blocks.rows[k]
  {
    DeleteBlocks(db, {id})
  }

  lemma InsertBlockKeepsValid(db: Db, block: Block)
    requires db.Valid()
    ensures InsertBlock(db, block).Done? ==> InsertBlock(db, block).value.db.Valid()
  {
  }

  /** The new block is listed for its site and nobody lives in it; the
      insert adds one block of that name to the site. */
  lemma InsertBlockThenListed(db: Db, block: Block)
    requires db.Valid()
    requires InsertBlock(db, block).Done?
    ensures var ins := InsertBlock(db, block).value;
      block.(id := ins.id) in BlocksBySite(ins.db, block.siteId)
    ensures var ins := InsertBlock(db, block).value;
      forall p :: p in ins.db.people.rows.Values ==> p.blockId != ins.id
    ensures var ins := InsertBlock(db, block).value;
      BlockCountBySiteAndName(ins.db, block.siteId, block.name) == BlockCountBySiteAndName(db, block.siteId, block.name) + 1
  {
    var ins := InsertBlock(db, block).value;
    assert ins.db.blocks.rows[ins.id] in ins.db.blocks.rows.Values;
    InsertedBlockNamed(db, ins.db, ins.id, block.(id := ins.id));
  }

  /** Adding a row under a fresh id adds that id, and only it, to the ids of its site and name. */
  lemma InsertedBlockNamed(db: Db, after: Db, id: nat, block: Block)
    requires id !in db.blocks.rows
    requires after.blocks.rows == db.blocks.rows[id := block]
    ensures BlocksNamed(after, block.siteId, block.name) == BlocksNamed(db, block.siteId, block.name) + {id}
    ensures |BlocksNamed(after, block.siteId, block.name)| == |BlocksNamed(db, block.siteId, block.name)| + 1
  {
    var before := BlocksNamed(db, block.siteId, block.name);
    assert BlocksNamed(after, block.siteId, block.name) == before + {id};
    assert id !in before;
  }

  lemma UpdateBlockKeepsValid(db: Db, block: Block)
    requires db.Valid()
    ensures UpdateBlock(db, block).Done? ==> UpdateBlock(db, block).value.Valid()
  {
  }

  /** Deleting a block removes its people and their payments; sites and months stay. */
  lemma DeleteBlockCascade(db: Db, id: nat)
    requires db.Valid()
    ensures DeleteBlock(db, id).Valid()
    ensures forall p :: p in DeleteBlock(db, id).people.rows.Values ==> p.blockId != id
    ensures forall pay :: pay in DeleteBlock(db, id).payments.rows.Values ==>
      db.people.rows[pay.personId].blockId != id
    ensures forall k :: k in db.people.rows && db.people.rows[k].blockId != id ==> k in DeleteBlock(db, id).people.rows
    ensures forall k :: (k in db.payments.rows && db.people.rows[db.payments.rows[k].personId].blockId != id) ==>
      k in DeleteBlock(db, id).payments.rows
    ensures DeleteBlock(db, id).sites == db.sites && DeleteBlock(db, id).months == db.months
  {
    DeleteBlocksKeepsValid(db, {id});
    var r := DeleteBlock(db, id);
    forall pay | pay in r.payments.rows.Values ensures db.people.rows[pay.personId].blockId != id {
      var k :| k in r.payments.rows && r.payments.rows[k] == pay;
      assert db.people.rows[pay.personId].id == pay.personId;
    }
    forall k | k in db.payments.rows && db.people.rows[db.payments.rows[k].personId].blockId != id
      ensures k in r.payments.rows
    {
      assert db.people.rows[db.payments.rows[k].personId].id == db.payments.rows[k].personId;
    }
  }
}
