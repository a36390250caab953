/** The queries and writes of the `payments` table (PaymentDao), with the
    row tests its SQL applies to amounts and flags. */
module PaymentDao {
  import opened Entities
  import opened Options
  import opened Tables
  import opened Ordering
  import opened Database

  /** The amount the SQL treats as "nothing entered": the literal '0' or ''.
      Any other text, "0,00" and " " included, is an amount. */
  predicate IsZeroAmount(s: string) {
    s == "0" || s == ""
  }

  /** The row belongs to that person and month. */
  predicate ForPair(pay: Payment, personId: nat, monthId: nat) {
    pay.personId == personId && pay.monthId == monthId
  }

  /** The row test of isPaymentSaved: an enabled field holds an amount. */
  predicate IsSavedRow(pay: Payment) {
    || (pay.isPaidEnabled && !IsZeroAmount(pay.paidAmount))
    || (pay.isWillPayEnabled && !IsZeroAmount(pay.willPayAmount))
  }

  /** The row test of the unpaid-people query: nothing enabled, or an enabled
      field without an amount. */
  predicate IsUnpaidRow(pay: Payment) {
    || (!pay.isPaidEnabled && !pay.isWillPayEnabled)
    || (pay.isPaidEnabled && IsZeroAmount(pay.paidAmount))
    || (pay.isWillPayEnabled && IsZeroAmount(pay.willPayAmount))
  }

  /** The LEFT JOIN test for one person: no row for the month (pay.id IS NULL),
      or some row for the month that is unpaid. */
  predicate PersonUnpaid(db: Db, personId: nat, monthId: nat) {
    || (forall pay :: pay in db.payments.rows.Values ==> !ForPair(pay, personId, monthId))
    || (exists pay :: pay in db.payments.rows.Values && ForPair(pay, personId, monthId) && IsUnpaidRow(pay))
  }

  /** The JOIN of people with blocks: some block of the site has this id. */
  predicate BlockOfSite(db: Db, blockId: nat, siteId: nat) {
    exists b :: b in db.blocks.rows.Values && b.id == blockId && b.siteId == siteId
  }

  /** getPaymentByPersonAndMonth / observePaymentByPersonAndMonth: the row of the pair, if any. */
  function PaymentByPersonAndMonth(db: Db, personId: nat, monthId: nat): (r: Option<Payment>)
    ensures r.Some? ==> r.value in db.payments.rows.Values && ForPair(r.value, personId, monthId)
    ensures r.None? <==> forall pay :: pay in db.payments.rows.Values ==> !ForPair(pay, personId, monthId)
    ensures db.PaymentPairsUnique() && r.Some? ==>
      forall pay :: pay in db.payments.rows.Values && ForPair(pay, personId, monthId) ==> pay == r.value
  {
    FirstWhere(db.payments, (pay: Payment) => ForPair(pay, personId, monthId))
  }

  /** isPaymentSaved: the number of rows of the pair that pass the saved test. */
  function SavedCount(db: Db, personId: nat, monthId: nat): (n: nat)
    ensures n > 0 <==> exists pay :: pay in db.payments.rows.Values && ForPair(pay, personId, monthId) && IsSavedRow(pay)
  {
    CountWhere(db.payments, (pay: Payment) => ForPair(pay, personId, monthId) && IsSavedRow(pay))
  }

  /** With the unique index, the saved count is 0 or 1. */
  lemma SavedCountAtMostOne(db: Db, personId: nat, monthId: nat)
    requires db.PaymentPairsUnique()
    ensures SavedCount(db, personId, monthId) <= 1
  {
    var keep := (pay: Payment) => ForPair(pay, personId, monthId) && IsSavedRow(pay);
    var keys := KeysWhere(db.payments, keep);
    if k0 :| k0 in keys {
      AtMostOne(keys, k0);
    }
  }

  /** The ids of the people of a block who are unpaid for the month. */
  function UnpaidPeople(db: Db, blockId: nat, monthId: nat): (r: set<nat>)
    ensures forall p :: p in db.people.rows.Values && p.blockId == blockId && PersonUnpaid(db, p.id, monthId) ==> p.id in r
    ensures forall id :: id in r ==> exists p :: p in db.people.rows.Values && p.blockId == blockId && p.id == id && PersonUnpaid(db, id, monthId)
  {
    set p | p in db.people.rows.Values && p.blockId == blockId && PersonUnpaid(db, p.id, monthId) :: p.id
  }

  /** getUnpaidPeopleCountInBlock: COUNT(DISTINCT p.id) over the unpaid people of the block. */
  function UnpaidPeopleCount(db: Db, blockId: nat, monthId: nat): (n: nat)
    ensures n == |UnpaidPeople(db, blockId, monthId)|
    ensures n > 0 <==> exists p :: p in db.people.rows.Values && p.blockId == blockId && PersonUnpaid(db, p.id, monthId)
  {
    |UnpaidPeople(db, blockId, monthId)|
  }

  /** The ids of the people of a block. */
  ghost function PeopleOf(db: Db, blockId: nat): set<nat> {
    set k | k in db.people.rows && db.people.rows[k].blockId == blockId
  }

  /** getPeopleCountInBlock. */
  function PeopleCount(db: Db, blockId: nat): (n: nat)
    ensures n == |PeopleOf(db, blockId)|
    ensures n == 0 <==> forall p :: p in db.people.rows.Values ==> p.blockId != blockId
  {
    assert KeysWhere(db.people, (p: Person) => p.blockId == blockId) == PeopleOf(db, blockId);
    CountWhere(db.people, (p: Person) => p.blockId == blockId)
  }

  /** The unpaid people of a block are some of its people. */
  lemma UnpaidAtMostPeople(db: Db, blockId: nat, monthId: nat)
    requires db.IdsMatch()
    ensures UnpaidPeopleCount(db, blockId, monthId) <= PeopleCount(db, blockId)
  {
    forall id | id in UnpaidPeople(db, blockId, monthId) ensures id in PeopleOf(db, blockId) {
      var p :| p in db.people.rows.Values && p.blockId == blockId && p.id == id && PersonUnpaid(db, id, monthId);
      var k :| k in db.people.rows && db.people.rows[k] == p;
    }
    SubsetNoLarger(UnpaidPeople(db, blockId, monthId), PeopleOf(db, blockId));
  }

  /** getIncompleteBlocksCountInSite. The query groups by block, so it yields one
      row per incomplete block and the count of the first row, 1, is returned;
      with no incomplete block there is no row and the result is 0. */
  function IncompleteBlocksCount(db: Db, siteId: nat, monthId: nat): (n: nat)
    ensures n <= 1
    ensures n > 0 <==> exists b, p :: (b in db.blocks.rows.Values && b.siteId == siteId
      && p in db.people.rows.Values && p.blockId == b.id && PersonUnpaid(db, p.id, monthId))
  {
    if exists b, p :: (b in db.blocks.rows.Values && b.siteId == siteId
      && p in db.people.rows.Values && p.blockId == b.id && PersonUnpaid(db, p.id, monthId))
    then 1 else 0
  }

  /** getBlocksWithPeopleCountInSite: COUNT(DISTINCT block_id) over the people
      whose block belongs to the site. */
  function BlocksWithPeopleCount(db: Db, siteId: nat): (n: nat)
    ensures n == |set b | b in db.blocks.rows.Values && b.siteId == siteId
      && (exists p :: p in db.people.rows.Values && p.blockId == b.id) :: b.id|
    ensures n == 0 <==> forall p :: p in db.people.rows.Values ==> !BlockOfSite(db, p.blockId, siteId)
  {
    var viaPeople := set p | p in db.people.rows.Values && BlockOfSite(db, p.blockId, siteId) :: p.blockId;
    var viaBlocks := set b | b in db.blocks.rows.Values && b.siteId == siteId
      && (exists p :: p in db.people.rows.Values && p.blockId == b.id) :: b.id;
    assert viaPeople == viaBlocks;
    assert forall p :: p in db.people.rows.Values && BlockOfSite(db, p.blockId, siteId) ==> p.blockId in viaPeople;
    |viaPeople|
  }

  /** getPaymentsByMonth / observePaymentsByMonth: the rows of the month, in no declared order. */
  function PaymentsByMonth(db: Db, monthId: nat): (r: seq<Payment>)
    ensures forall pay :: pay in r <==> pay in db.payments.rows.Values && pay.monthId == monthId
    ensures |r| == |set k | k in db.payments.rows && db.payments.rows[k].monthId == monthId|
  {
    assert KeysWhere(db.payments, (pay: Payment) => pay.monthId == monthId)
      == set k | k in db.payments.rows && db.payments.rows[k].monthId == monthId;
    Where(db.payments, (pay: Payment) => pay.monthId == monthId)
  }

  /** ORDER BY created_at DESC. */
  function NewestFirst(pay: Payment): SortKey {
    SortKey(-pay.createdAt, 0, pay.id)
  }

  /** getPaymentsByPerson: the rows of the person, newest first. */
  function PaymentsByPerson(db: Db, personId: nat): (r: seq<Payment>)
    ensures forall pay :: pay in r <==> pay in db.payments.rows.Values && pay.personId == personId
    ensures |r| == |set k | k in db.payments.rows && db.payments.rows[k].personId == personId|
    ensures forall i, j :: 0 <= i < j < |r| ==> r[i].createdAt >= r[j].createdAt
  {
    var all := Where(db.payments, (pay: Payment) => pay.personId == personId);
    assert KeysWhere(db.payments, (pay: Payment) => pay.personId == personId)
      == set k | k in db.payments.rows && db.payments.rows[k].personId == personId;
    SortByMembers(all, NewestFirst);
    SortBy(all, NewestFirst)
  }

  /** insertOrUpdatePayment (@Insert with REPLACE): the person and the month
      must exist; every row that collides on the id or on the (person, month)
      pair is deleted, then the row is stored under its id or a fresh one. */
  function ReplacePayment(db: Db, pay: Payment): (r: Outcome<Inserted>)
    ensures r.Failed? <==> pay.personId !in db.people.rows || pay.monthId !in db.months.rows
    ensures r.Failed? ==> r.error == ForeignKeyViolation
    ensures r.Done? ==>
      var id := r.value.id;
      var after := r.value.db;
      && (pay.id != UNASSIGNED ==> id == pay.id)
      && (pay.id == UNASSIGNED ==> id !in db.payments.rows)
      && after == db.(payments := after.payments)
      && id in after.payments.rows && after.payments.rows[id] == pay.(id := id)
      && (forall k :: k in after.payments.rows && k != id ==>
            && k in db.payments.rows && after.payments.rows[k] == db.payments.rows[k]
            && after.payments.rows[k].id != id
            && !ForPair(after.payments.rows[k], pay.personId, pay.monthId))
      && (forall k :: (k in db.payments.rows && k != id && db.payments.rows[k].id != id
            && !ForPair(db.payments.rows[k], pay.personId, pay.monthId)) ==> k in after.payments.rows)
  {
    if pay.personId !in db.people.rows || pay.monthId !in db.months.rows then Failed(ForeignKeyViolation)
    else
      var id := AssignedId(db.payments, pay.id);
      var kept := DeleteWhere(db.payments, (q: Payment) => q.id == id || ForPair(q, pay.personId, pay.monthId));
      Done(Inserted(db.(payments := Put(kept, id, pay.(id := id))), id))
  }

  /** Some row other than `pay.id` already holds the pair of `pay`. */
  predicate PairTakenByOther(db: Db, pay: Payment) {
    exists k :: k in db.payments.rows && k != pay.id && ForPair(db.payments.rows[k], pay.personId, pay.monthId)
  }

  /** updatePayment (@Update): replaces the row with the same id, if there is
      one; the new pair must not belong to another row and its person and month
      must exist. */
  function UpdatePayment(db: Db, pay: Payment): (r: Outcome<Db>)
    ensures pay.id !in db.payments.rows ==> r == Done(db)
    ensures r == Failed(UniqueViolation) <==> pay.id in db.payments.rows && PairTakenByOther(db, pay)
    ensures r == Failed(ForeignKeyViolation) <==> (pay.id in db.payments.rows && !PairTakenByOther(db, pay)
      && (pay.personId !in db.people.rows || pay.monthId !in db.months.rows))
    ensures r.Done? && pay.id in db.payments.rows ==>
      r.value.payments.rows == db.payments.rows[pay.id := pay] && r.value == db.(payments := r.value.payments)
  {
    if pay.id !in db.payments.rows then Done(db)
    else if PairTakenByOther(db, pay) then Failed(UniqueViolation)
    else if pay.personId !in db.people.rows || pay.monthId !in db.months.rows then Failed(ForeignKeyViolation)
    else Done(db.(payments := Put(db.payments, pay.id, pay)))
  }

  /** deletePayment: removes the row with that id. */
  function DeletePayment(db: Db, id: nat): (r: Db)
    ensures r == db.(payments := r.payments) && Shrunk(r.payments, db.payments)
    ensures forall k :: k in r.payments.rows <==> k in db.payments.rows && db.payments.rows[k].id != id
  {
    db.(payments := DeleteWhere(db.payments, (q: Payment) => q.id == id))
  }

  /** deletePaymentByPersonAndMonth: removes the rows of the pair. */
  function DeletePaymentByPersonAndMonth(db: Db, personId: nat, monthId: nat): (r: Db)
    ensures r == db.(payments := r.payments) && Shrunk(r.payments, db.payments)
    ensures forall k :: k in r.payments.rows <==> k in db.payments.rows && !ForPair(db.payments.rows[k], personId, monthId)
  {
    db.(payments := DeleteWhere(db.payments, (q: Payment) => ForPair(q, personId, monthId)))
  }

  lemma ReplacePaymentKeepsValid(db: Db, pay: Payment)
    requires db.Valid()
    ensures ReplacePayment(db, pay).Done? ==> ReplacePayment(db, pay).value.db.Valid()
  {
    if pay.personId in db.people.rows && pay.monthId in db.months.rows {
      var id := AssignedId(db.payments, pay.id);
      var kept := DeleteWhere(db.payments, (q: Payment) => q.id == id || ForPair(q, pay.personId, pay.monthId));
      var after := db.(payments := Put(kept, id, pay.(id := id)));
      assert ReplacePayment(db, pay).value.db == after;
      PutUnclaimedPairKeepsValid(db, kept, pay.(id := id));
    }
  }

  /** Storing a payment of an existing person and month over a part of the
      payments table in which nothing holds its pair keeps the store valid. */
  lemma PutUnclaimedPairKeepsValid(db: Db, kept: Table<Payment>, pay: Payment)
    requires db.Valid()
    requires pay.id > 0 && pay.personId in db.people.rows && pay.monthId in db.months.rows
    requires forall k :: k in kept.rows ==> k in db.payments.rows && kept.rows[k] == db.payments.rows[k]
    requires forall k :: k in kept.rows ==> !ForPair(kept.rows[k], pay.personId, pay.monthId)
    ensures db.(payments := Put(kept, pay.id, pay)).Valid()
  {
    var after := db.(payments := Put(kept, pay.id, pay));
    var rows := after.payments.rows;
    assert after.IdsMatch() by {
      forall k | k in rows ensures rows[k].id == k {
        if k != pay.id { assert rows[k] == db.payments.rows[k]; }
      }
    }
    assert after.ReferencesResolve() by {
      forall k | k in rows ensures rows[k].personId in db.people.rows && rows[k].monthId in db.months.rows {
        if k != pay.id { assert rows[k] == db.payments.rows[k]; }
      }
    }
    forall k1, k2 | k1 in rows && k2 in rows
      && rows[k1].personId == rows[k2].personId && rows[k1].monthId == rows[k2].monthId
      ensures k1 == k2
    {
      if k1 != pay.id && k2 != pay.id {
        assert db.payments.rows[k1] == rows[k1] && db.payments.rows[k2] == rows[k2];
      }
    }
  }

  /** After a save, the pair has exactly one row, carrying the saved content. */
  lemma ReplacePaymentOneRow(db: Db, pay: Payment)
    requires ReplacePayment(db, pay).Done?
    ensures var ins := ReplacePayment(db, pay).value;
      forall k :: k in ins.db.payments.rows && ForPair(ins.db.payments.rows[k], pay.personId, pay.monthId) <==> k == ins.id
    ensures var ins := ReplacePayment(db, pay).value;
      PaymentByPersonAndMonth(ins.db, pay.personId, pay.monthId) == Some(pay.(id := ins.id))
  {
    var ins := ReplacePayment(db, pay).value;
    var rows := ins.db.payments.rows;
    assert rows[ins.id] in rows.Values;
    forall q | q in rows.Values && ForPair(q, pay.personId, pay.monthId) ensures q == pay.(id := ins.id) {
      var k :| k in rows && rows[k] == q;
    }
  }

  lemma UpdatePaymentKeepsValid(db: Db, pay: Payment)
    requires db.Valid()
    ensures UpdatePayment(db, pay).Done? ==> UpdatePayment(db, pay).value.Valid()
  {
    if pay.id in db.payments.rows && !PairTakenByOther(db, pay)
      && pay.personId in db.people.rows && pay.monthId in db.months.rows
    {
      assert UpdatePayment(db, pay) == Done(db.(payments := Put(db.payments, pay.id, pay)));
      UpdatedRowKeepsValid(db, pay);
    }
  }

  /** The successful case of an update keeps the store valid. */
  lemma UpdatedRowKeepsValid(db: Db, pay: Payment)
    requires db.Valid()
    requires pay.id in db.payments.rows && !PairTakenByOther(db, pay)
    requires pay.personId in db.people.rows && pay.monthId in db.months.rows
    ensures db.(payments := Put(db.payments, pay.id, pay)).Valid()
  {
    UpdatedRowKeepsPairsUnique(db, pay);
    UpdatedRowKeepsReferences(db, pay);
  }

  lemma UpdatedRowKeepsReferences(db: Db, pay: Payment)
    requires db.IdsMatch() && db.ReferencesResolve()
    requires pay.id in db.payments.rows
    requires pay.personId in db.people.rows && pay.monthId in db.months.rows
    ensures db.(payments := Put(db.payments, pay.id, pay)).IdsMatch()
    ensures db.(payments := Put(db.payments, pay.id, pay)).ReferencesResolve()
  {
  }

  lemma UpdatedRowKeepsPairsUnique(db: Db, pay: Payment)
    requires db.PaymentPairsUnique()
    requires pay.id in db.payments.rows && !PairTakenByOther(db, pay)
    ensures db.(payments := Put(db.payments, pay.id, pay)).PaymentPairsUnique()
  {
  }

  lemma DeletePaymentKeepsValid(db: Db, id: nat)
    requires db.Valid()
    ensures DeletePayment(db, id).Valid()
  {
  }

  /** Deleting by pair leaves the pair without a row and keeps the store valid;
      with no row for the pair it changes nothing. */
  lemma DeleteByPairEffect(db: Db, personId: nat, monthId: nat)
    requires db.Valid()
    ensures DeletePaymentByPersonAndMonth(db, personId, monthId).Valid()
    ensures PaymentByPersonAndMonth(DeletePaymentByPersonAndMonth(db, personId, monthId), personId, monthId).None?
    ensures (forall pay :: pay in db.payments.rows.Values ==> !ForPair(pay, personId, monthId)) ==>
      DeletePaymentByPersonAndMonth(db, personId, monthId) == db
  {
    var r := DeletePaymentByPersonAndMonth(db, personId, monthId);
    assert r.IdsMatch();
    assert r.ReferencesResolve();
    assert r.PaymentPairsUnique();
    forall pay | pay in r.payments.rows.Values ensures !ForPair(pay, personId, monthId) {
      var k :| k in r.payments.rows && r.payments.rows[k] == pay;
    }
    if forall pay :: pay in db.payments.rows.Values ==> !ForPair(pay, personId, monthId) {
      DeleteByPairNoRow(db, personId, monthId);
    }
  }

  lemma DeleteByPairNoRow(db: Db, personId: nat, monthId: nat)
    requires forall pay :: pay in db.payments.rows.Values ==> !ForPair(pay, personId, monthId)
    ensures DeletePaymentByPersonAndMonth(db, personId, monthId) == db
  {
    var r := DeletePaymentByPersonAndMonth(db, personId, monthId);
    forall k | k in db.payments.rows ensures k in r.payments.rows {
      assert db.payments.rows[k] in db.payments.rows.Values;
    }
    assert r.payments.rows == db.payments.rows;
  }
}
