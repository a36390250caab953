/** The Room database object the repositories share: five tables updated in
    place by the DAO writes. Each write method applies the DAO transition to
    the current contents and keeps the store's integrity. */
module AppDatabase {
  import opened Entities
  import opened Tables
  import opened Database
  import SiteDao
  import MonthDao
  import BlockDao
  import PersonDao
  import PaymentDao

  /** The `message` of the SQLiteConstraintException a refused write throws. */
  function ExceptionMessage(e: StoreError): string {
    match e
    case ForeignKeyViolation => "FOREIGN KEY constraint failed"
    case UniqueViolation => "UNIQUE constraint failed"
  }

  /** What an insert returns to its caller: the new row id, or the refusal. */
  function InsertResult(o: Outcome<Inserted>): Outcome<nat> {
    match o
    case Done(ins) => Done(ins.id)
    case Failed(e) => Failed(e)
  }

  /** The contents after an insert: the new database, or the old one when refused. */
  function AfterInsert(db: Db, o: Outcome<Inserted>): Db {
    if o.Done? then o.value.db else db
  }

  /** The contents after an update: the new database, or the old one when refused. */
  function AfterUpdate(db: Db, o: Outcome<Db>): Db {
    if o.Done? then o.value else db
  }

  /** What an update returns to its caller: nothing, or the refusal. */
  function UpdateResult(o: Outcome<Db>): Outcome<()> {
    match o
    case Done(_) => Done(())
    case Failed(e) => Failed(e)
  }

  class Store {
    var sites: Table<Site>
    var months: Table<Month>
    var blocks: Table<Block>
    var people: Table<Person>
    var payments: Table<Payment>

    /** The current contents, as the value the DAO functions work on. */
    function Snapshot(): Db
      reads this
    {
      Db(sites, months, blocks, people, payments)
    }

    ghost predicate Valid()
      reads this
    {
      Snapshot().Valid()
    }

    /** A new, empty database. */
    constructor ()
      ensures Snapshot() == EmptyDb()
      ensures Valid()
    {
      sites, months, blocks, people, payments := EmptyTable(), EmptyTable(), EmptyTable(), EmptyTable(), EmptyTable();
    }

    /** Stores the contents a write produced. */
    method Commit(db: Db)
      modifies this
      ensures Snapshot() == db
    {
      sites, months, blocks, people, payments := db.sites, db.months, db.blocks, db.people, db.payments;
    }

    method InsertSite(site: Site) returns (r: Outcome<nat>)
      requires Valid()
      modifies this
      ensures Valid()
      ensures r == InsertResult(SiteDao.InsertSite(old(Snapshot()), site))
      ensures Snapshot() == AfterInsert(old(Snapshot()), SiteDao.InsertSite(old(Snapshot()), site))
    {
      var o := SiteDao.InsertSite(Snapshot(), site);
      SiteDao.InsertSiteKeepsValid(Snapshot(), site);
      if o.Done? {
        Commit(o.value.db);
      }
      r := InsertResult(o);
    }

    method UpdateSite(site: Site)
      requires Valid()
      modifies this
      ensures Valid()
      ensures Snapshot() == SiteDao.UpdateSite(old(Snapshot()), site)
    {
      SiteDao.UpdateSiteKeepsValid(Snapshot(), site);
      Commit(SiteDao.UpdateSite(Snapshot(), site));
    }

    method DeleteSite(id: nat)
      requires Valid()
      modifies this
      ensures Valid()
      ensures Snapshot() == SiteDao.DeleteSite(old(Snapshot()), id)
    {
      SiteDao.DeleteSiteCascade(Snapshot(), id);
      Commit(SiteDao.DeleteSite(Snapshot(), id));
    }

    method InsertMonth(month: Month) returns (r: Outcome<nat>)
      requires Valid()
      modifies this
      ensures Valid()
      ensures r == InsertResult(MonthDao.InsertMonth(old(Snapshot()), month))
      ensures Snapshot() == AfterInsert(old(Snapshot()), MonthDao.InsertMonth(old(Snapshot()), month))
    {
      var o := MonthDao.InsertMonth(Snapshot(), month);
      MonthDao.InsertMonthKeepsValid(Snapshot(), month);
      if o.Done? {
        Commit(o.value.db);
      }
      r := InsertResult(o);
    }

    method UpdateMonth(month: Month) returns (r: Outcome<()>)
      requires Valid()
      modifies this
      ensures Valid()
      ensures r == UpdateResult(MonthDao.UpdateMonth(old(Snapshot()), month))
      ensures Snapshot() == AfterUpdate(old(Snapshot()), MonthDao.UpdateMonth(old(Snapshot()), month))
    {
      var o := MonthDao.UpdateMonth(Snapshot(), month);
      MonthDao.UpdateMonthKeepsValid(Snapshot(), month);
      if o.Done? {
        Commit(o.value);
      }
      r := UpdateResult(o);
    }

    method DeleteMonth(id: nat)
      requires Valid()
      modifies this
      ensures Valid()
      ensures Snapshot() == MonthDao.DeleteMonth(old(Snapshot()), id)
    {
      MonthDao.DeleteMonthCascade(Snapshot(), id);
      Commit(MonthDao.DeleteMonth(Snapshot(), id));
    }

    method InsertBlock(block: Block) returns (r: Outcome<nat>)
      requires Valid()
      modifies this
      ensures Valid()
      ensures r == InsertResult(BlockDao.InsertBlock(old(Snapshot()), block))
      ensures Snapshot() == AfterInsert(old(Snapshot()), BlockDao.InsertBlock(old(Snapshot()), block))
    {
      var o := BlockDao.InsertBlock(Snapshot(), block);
      BlockDao.InsertBlockKeepsValid(Snapshot(), block);
      if o.Done? {
        Commit(o.value.db);
      }
      r := InsertResult(o);
    }

    method UpdateBlock(block: Block) returns (r: Outcome<()>)
      requires Valid()
      modifies this
      ensures Valid()
      ensures r == UpdateResult(BlockDao.UpdateBlock(old(Snapshot()), block))
      ensures Snapshot() == AfterUpdate(old(Snapshot()), BlockDao.UpdateBlock(old(Snapshot()), block))
    {
      var o := BlockDao.UpdateBlock(Snapshot(), block);
      BlockDao.UpdateBlockKeepsValid(Snapshot(), block);
      if o.Done? {
        Commit(o.value);
      }
      r := UpdateResult(o);
    }

    method DeleteBlock(id: nat)
      requires Valid()
      modifies this
      ensures Valid()
      ensures Snapshot() == BlockDao.DeleteBlock(old(Snapshot()), id)
    {
      BlockDao.DeleteBlockCascade(Snapshot(), id);
      Commit(BlockDao.DeleteBlock(Snapshot(), id));
    }

    method InsertPerson(person: Person) returns (r: Outcome<nat>)
      requires Valid()
      modifies this
      ensures Valid()
      ensures r == InsertResult(PersonDao.InsertPerson(old(Snapshot()), person))
      ensures Snapshot() == AfterInsert(old(Snapshot()), PersonDao.InsertPerson(old(Snapshot()), person))
    {
      var o := PersonDao.InsertPerson(Snapshot(), person);
      PersonDao.InsertPersonKeepsValid(Snapshot(), person);
      if o.Done? {
        Commit(o.value.db);
      }
      r := InsertResult(o);
    }

    method UpdatePerson(person: Person) returns (r: Outcome<()>)
      requires Valid()
      modifies this
      ensures Valid()
      ensures r == UpdateResult(PersonDao.UpdatePerson(old(Snapshot()), person))
      ensures Snapshot() == AfterUpdate(old(Snapshot()), PersonDao.UpdatePerson(old(Snapshot()), person))
    {
      var o := PersonDao.UpdatePerson(Snapshot(), person);
      PersonDao.UpdatePersonKeepsValid(Snapshot(), person);
      if o.Done? {
        Commit(o.value);
      }
      r := UpdateResult(o);
    }

    method DeletePerson(id: nat)
      requires Valid()
      modifies this
      ensures Valid()
      ensures Snapshot() == PersonDao.DeletePerson(old(Snapshot()), id)
    {
      PersonDao.DeletePersonCascade(Snapshot(), id);
      Commit(PersonDao.DeletePerson(Snapshot(), id));
    }

    /** insertOrUpdatePayment, reached through savePayment. */
    method ReplacePayment(pay: Payment) returns (r: Outcome<nat>)
      requires Valid()
      modifies this
      ensures Valid()
      ensures r == InsertResult(PaymentDao.ReplacePayment(old(Snapshot()), pay))
      ensures Snapshot() == AfterInsert(old(Snapshot()), PaymentDao.ReplacePayment(old(Snapshot()), pay))
    {
      var o := PaymentDao.ReplacePayment(Snapshot(), pay);
      PaymentDao.ReplacePaymentKeepsValid(Snapshot(), pay);
      if o.Done? {
        Commit(o.value.db);
      }
      r := InsertResult(o);
    }

    method UpdatePayment(pay: Payment) returns (r: Outcome<()>)
      requires Valid()
      modifies this
      ensures Valid()
      ensures r == UpdateResult(PaymentDao.UpdatePayment(old(Snapshot()), pay))
      ensures Snapshot() == AfterUpdate(old(Snapshot()), PaymentDao.UpdatePayment(old(Snapshot()), pay))
    {
      var o := PaymentDao.UpdatePayment(Snapshot(), pay);
      PaymentDao.UpdatePaymentKeepsValid(Snapshot(), pay);
      if o.Done? {
        Commit(o.value);
      }
      r := UpdateResult(o);
    }

    method DeletePayment(id: nat)
      requires Valid()
      modifies this
      ensures Valid()
      ensures Snapshot() == PaymentDao.DeletePayment(old(Snapshot()), id)
    {
      PaymentDao.DeletePaymentKeepsValid(Snapshot(), id);
      Commit(PaymentDao.DeletePayment(Snapshot(), id));
    }

    method DeletePaymentByPersonAndMonth(personId: nat, monthId: nat)
      requires Valid()
      modifies this
      ensures Valid()
      ensures Snapshot() == PaymentDao.DeletePaymentByPersonAndMonth(old(Snapshot()), personId, monthId)
    {
      PaymentDao.DeleteByPairEffect(Snapshot(), personId, monthId);
      Commit(PaymentDao.DeletePaymentByPersonAndMonth(Snapshot(), personId, monthId));
    }
  }
}
