/** The schema of the store: the five tables, the integrity the store keeps
    (foreign keys and the unique (person, month) index of payments), and
    the ON DELETE CASCADE rules of the entity annotations. */
module Database {
  import opened Entities
  import opened Tables

  /** The two ways a write is refused (SQLiteConstraintException). */
  datatype StoreError = ForeignKeyViolation | UniqueViolation

  /** A write either completes with a value or is refused without any change. */
  datatype Outcome<T> = Done(value: T) | Failed(error: StoreError)

  /** The database after a successful insert and the row id the insert returns. */
  datatype Inserted = Inserted(db: Db, id: nat)

  datatype Db = Db(
    sites: Table<Site>,
    months: Table<Month>,
    blocks: Table<Block>,
    people: Table<Person>,
    payments: Table<Payment>)
  {
    /** Every row is stored under its own id column. */
    ghost predicate IdsMatch() {
      && (forall k :: k in sites.rows ==> sites.rows[k].id == k)
      && (forall k :: k in months.rows ==> months.rows[k].id == k)
      && (forall k :: k in blocks.rows ==> blocks.rows[k].id == k)
      && (forall k :: k in people.rows ==> people.rows[k].id == k)
      && (forall k :: k in payments.rows ==> payments.rows[k].id == k)
    }

    /** Month -> Site, Block -> Site, Person -> Block, Payment -> Person and Month. */
    ghost predicate ReferencesResolve() {
      && (forall k :: k in months.rows ==> months.rows[k].siteId in sites.rows)
      && (forall k :: k in blocks.rows ==> blocks.rows[k].siteId in sites.rows)
      && (forall k :: k in people.rows ==> people.rows[k].blockId in blocks.rows)
      && (forall k :: k in payments.rows ==> payments.rows[k].personId in people.rows)
      && (forall k :: k in payments.rows ==> payments.rows[k].monthId in months.rows)
    }

    /** The unique index on (person_id, month_id). */
    ghost predicate PaymentPairsUnique() {
      forall k1, k2 :: k1 in payments.rows && k2 in payments.rows
        && payments.rows[k1].personId == payments.rows[k2].personId
        && payments.rows[k1].monthId == payments.rows[k2].monthId
        ==> k1 == k2
    }

    ghost predicate Valid() {
      IdsMatch() && ReferencesResolve() && PaymentPairsUnique()
    }
  }

  /** A freshly created database. */
  function EmptyDb(): (db: Db)
    ensures db.Valid()
    ensures db.sites.rows == map[] && db.months.rows == map[] && db.blocks.rows == map[]
    ensures db.people.rows == map[] && db.payments.rows == map[]
  {
    Db(EmptyTable(), EmptyTable(), EmptyTable(), EmptyTable(), EmptyTable())
  }

  /** The ids of the people living in the given blocks. */
  function PeopleOfBlocks(db: Db, blockIds: set<nat>): (r: set<nat>)
    ensures forall p :: p in db.people.rows.Values && p.blockId in blockIds ==> p.id in r
    ensures db.IdsMatch() ==> forall k :: k in db.people.rows ==> (k in r <==> db.people.rows[k].blockId in blockIds)
  {
    set p | p in db.people.rows.Values && p.blockId in blockIds :: p.id
  }

  /** The ids of the months of the given sites. */
  function MonthsOfSites(db: Db, siteIds: set<nat>): (r: set<nat>)
    ensures forall m :: m in db.months.rows.Values && m.siteId in siteIds ==> m.id in r
    ensures db.IdsMatch() ==> forall k :: k in db.months.rows ==> (k in r <==> db.months.rows[k].siteId in siteIds)
  {
    set m | m in db.months.rows.Values && m.siteId in siteIds :: m.id
  }

  /** The ids of the blocks of the given sites. */
  function BlocksOfSites(db: Db, siteIds: set<nat>): (r: set<nat>)
    ensures forall b :: b in db.blocks.rows.Values && b.siteId in siteIds ==> b.id in r
    ensures db.IdsMatch() ==> forall k :: k in db.blocks.rows ==> (k in r <==> db.blocks.rows[k].siteId in siteIds)
  {
    set b | b in db.blocks.rows.Values && b.siteId in siteIds :: b.id
  }

  /** Deletes the people with the given ids and, by cascade, their payments. */
  function DeletePeople(db: Db, ids: set<nat>): (r: Db)
    ensures r.sites == db.sites && r.months == db.months && r.blocks == db.blocks
    ensures Shrunk(r.people, db.people) && Shrunk(r.payments, db.payments)
    ensures forall k :: k in r.people.rows <==> k in db.people.rows && db.people.rows[k].id !in ids
    ensures forall k :: k in r.payments.rows <==> k in db.payments.rows && db.payments.rows[k].personId !in ids
  {
    db.(people := DeleteWhere(db.people, (p: Person) => p.id in ids),
        payments := DeleteWhere(db.payments, (pay: Payment) => pay.personId in ids))
  }

  /** Deletes the blocks with the given ids and, by cascade, their people and those people's payments. */
  function DeleteBlocks(db: Db, ids: set<nat>): (r: Db)
    ensures r.sites == db.sites && r.months == db.months
    ensures Shrunk(r.blocks, db.blocks) && Shrunk(r.people, db.people) && Shrunk(r.payments, db.payments)
    ensures forall k :: k in r.blocks.rows <==> k in db.blocks.rows && db.blocks.rows[k].id !in ids
    ensures forall k :: k in r.people.rows <==> k in db.people.rows && db.people.rows[k].id !in PeopleOfBlocks(db, ids)
    ensures forall k :: k in r.payments.rows <==>
      k in db.payments.rows && db.payments.rows[k].personId !in PeopleOfBlocks(db, ids)
  {
    DeletePeople(db.(blocks := DeleteWhere(db.blocks, (b: Block) => b.id in ids)), PeopleOfBlocks(db, ids))
  }

  /** Deletes the months with the given ids and, by cascade, their payments. */
  function DeleteMonths(db: Db, ids: set<nat>): (r: Db)
    ensures r.sites == db.sites && r.blocks == db.blocks && r.people == db.people
    ensures Shrunk(r.months, db.months) && Shrunk(r.payments, db.payments)
    ensures forall k :: k in r.months.rows <==> k in db.months.rows && db.months.rows[k].id !in ids
    ensures forall k :: k in r.payments.rows <==> k in db.payments.rows && db.payments.rows[k].monthId !in ids
  {
    db.(months := DeleteWhere(db.months, (m: Month) => m.id in ids),
        payments := DeleteWhere(db.payments, (pay: Payment) => pay.monthId in ids))
  }

  /** Deletes the sites with the given ids and, by cascade, everything below them. */
  function DeleteSites(db: Db, ids: set<nat>): (r: Db)
    ensures Shrunk(r.sites, db.sites) && Shrunk(r.months, db.months) && Shrunk(r.blocks, db.blocks)
    ensures Shrunk(r.people, db.people) && Shrunk(r.payments, db.payments)
    ensures forall k :: k in r.sites.rows <==> k in db.sites.rows && db.sites.rows[k].id !in ids
    ensures forall k :: k in r.months.rows <==> k in db.months.rows && db.months.rows[k].id !in MonthsOfSites(db, ids)
    ensures forall k :: k in r.blocks.rows <==> k in db.blocks.rows && db.blocks.rows[k].id !in BlocksOfSites(db, ids)
    ensures forall k :: k in r.people.rows <==>
      k in db.people.rows && db.people.rows[k].id !in PeopleOfBlocks(db, BlocksOfSites(db, ids))
    ensures forall k :: k in r.payments.rows <==>
      k in db.payments.rows
      && db.payments.rows[k].monthId !in MonthsOfSites(db, ids)
      && db.payments.rows[k].personId !in PeopleOfBlocks(db, BlocksOfSites(db, ids))
  {
    var d1 := DeleteMonths(db, MonthsOfSites(db, ids));
    assert PeopleOfBlocks(d1, BlocksOfSites(db, ids)) == PeopleOfBlocks(db, BlocksOfSites(db, ids));
    var d2 := DeleteBlocks(d1, BlocksOfSites(db, ids));
    d2.(sites := DeleteWhere(d2.sites, (s: Site) => s.id in ids))
  }

  lemma DeletePeopleKeepsValid(db: Db, ids: set<nat>)
    requires db.Valid()
    ensures DeletePeople(db, ids).Valid()
  {
    var r := DeletePeople(db, ids);
    forall k | k in r.payments.rows ensures r.payments.rows[k].personId in r.people.rows {
      var pid := db.payments.rows[k].personId;
      assert db.people.rows[pid].id == pid;
    }
  }

  lemma DeleteBlocksKeepsValid(db: Db, ids: set<nat>)
    requires db.Valid()
    ensures DeleteBlocks(db, ids).Valid()
  {
    var people := PeopleOfBlocks(db, ids);
    var d0 := DeletePeople(db, people);
    DeletePeopleKeepsValid(db, people);
    var kept := DeleteWhere(db.blocks, (b: Block) => b.id in ids);
    assert DeleteBlocks(db, ids) == d0.(blocks := kept);
    EmptyBlocksDeletedKeepsValid(d0, kept, ids);
  }

  /** Removing blocks nobody lives in keeps the store valid. */
  lemma EmptyBlocksDeletedKeepsValid(db: Db, kept: Table<Block>, ids: set<nat>)
    requires db.Valid()
    requires forall k :: k in db.people.rows ==> db.people.rows[k].blockId !in ids
    requires forall k :: k in kept.rows <==> k in db.blocks.rows && db.blocks.rows[k].id !in ids
    requires Shrunk(kept, db.blocks)
    ensures db.(blocks := kept).Valid()
  {
    var r := db.(blocks := kept);
    forall k | k in r.people.rows ensures r.people.rows[k].blockId in r.blocks.rows {
      var bid := db.people.rows[k].blockId;
      assert db.blocks.rows[bid].id == bid;
    }
  }

  lemma DeleteMonthsKeepsValid(db: Db, ids: set<nat>)
    requires db.Valid()
    ensures DeleteMonths(db, ids).Valid()
  {
    var r := DeleteMonths(db, ids);
    forall k | k in r.payments.rows ensures r.payments.rows[k].monthId in r.months.rows {
      var mid := db.payments.rows[k].monthId;
      assert db.months.rows[mid].id == mid;
    }
  }

  lemma DeleteSitesKeepsValid(db: Db, ids: set<nat>)
    requires db.Valid()
    ensures DeleteSites(db, ids).Valid()
  {
    var d1 := DeleteMonths(db, MonthsOfSites(db, ids));
    DeleteMonthsKeepsValid(db, MonthsOfSites(db, ids));
    var d2 := DeleteBlocks(d1, BlocksOfSites(db, ids));
    DeleteBlocksKeepsValid(d1, BlocksOfSites(db, ids));
    var r := DeleteSites(db, ids);
    assert r == d2.(sites := DeleteWhere(d2.sites, (s: Site) => s.id in ids));
    forall k | k in r.months.rows ensures r.months.rows[k].siteId in r.sites.rows {
      var sid := db.months.rows[k].siteId;
      assert db.sites.rows[sid].id == sid;
    }
    forall k | k in r.blocks.rows ensures r.blocks.rows[k].siteId in r.sites.rows {
      var sid := db.blocks.rows[k].siteId;
      assert db.sites.rows[sid].id == sid;
    }
  }
}
