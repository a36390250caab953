/** PaymentRepository: the payment status of one person, one block and one
    site for a month, built from the PaymentDao counts. savePayment,
    removePaymentByPersonAndMonth, updatePayment and deletePayment pass
    straight through to PaymentDao. */
module PaymentRepository {
  import opened Entities
  import opened Options
  import opened Tables
  import opened Database
  import opened PaymentDao

  /** isPaymentSaved: the DAO count is positive, i.e. the pair has a saved row. */
  function IsPaymentSaved(db: Db, personId: nat, monthId: nat): (r: bool)
    ensures r <==> exists pay :: pay in db.payments.rows.Values && ForPair(pay, personId, monthId) && IsSavedRow(pay)
  {
    SavedCount(db, personId, monthId) > 0
  }

  /** isBlockFullyPaid: true for a block without people; otherwise true iff
      no person of the block is unpaid for the month. */
  function IsBlockFullyPaid(db: Db, blockId: nat, monthId: nat): (r: bool)
    ensures (forall p :: p in db.people.rows.Values ==> p.blockId != blockId) ==> r
    ensures r <==> forall p :: p in db.people.rows.Values && p.blockId == blockId ==> !PersonUnpaid(db, p.id, monthId)
  {
    if PeopleCount(db, blockId) == 0 then true
    else UnpaidPeopleCount(db, blockId, monthId) == 0
  }

  /** isMonthFullyPaidInSite: true for a site without people; otherwise true
      iff no block of the site is incomplete. Either way, exactly when every
      block of the site is fully paid. */
  function IsMonthFullyPaidInSite(db: Db, siteId: nat, monthId: nat): (r: bool)
    ensures (forall p :: p in db.people.rows.Values ==> !BlockOfSite(db, p.blockId, siteId)) ==> r
    ensures r <==> forall b :: b in db.blocks.rows.Values && b.siteId == siteId ==> IsBlockFullyPaid(db, b.id, monthId)
  {
    if BlocksWithPeopleCount(db, siteId) == 0 then
      assert forall b, p :: (b in db.blocks.rows.Values && b.siteId == siteId && p in db.people.rows.Values
        && p.blockId == b.id) ==> BlockOfSite(db, p.blockId, siteId);
      true
    else
      IncompleteBlocksCount(db, siteId, monthId) == 0
  }

  /** A person who is not unpaid has a saved row. */
  lemma NotUnpaidIsSaved(db: Db, personId: nat, monthId: nat)
    requires !PersonUnpaid(db, personId, monthId)
    ensures IsPaymentSaved(db, personId, monthId)
  {
    var pay :| pay in db.payments.rows.Values && ForPair(pay, personId, monthId);
    assert !IsUnpaidRow(pay);
    assert IsSavedRow(pay);
  }

  /** In a fully paid block every person passes isPaymentSaved. */
  lemma FullyPaidBlockAllSaved(db: Db, blockId: nat, monthId: nat)
    requires IsBlockFullyPaid(db, blockId, monthId)
    ensures forall p :: p in db.people.rows.Values && p.blockId == blockId ==> IsPaymentSaved(db, p.id, monthId)
  {
    forall p | p in db.people.rows.Values && p.blockId == blockId ensures IsPaymentSaved(db, p.id, monthId) {
      NotUnpaidIsSaved(db, p.id, monthId);
    }
  }

  /** The converse fails: a row that is saved and unpaid at once makes its
      person saved while the block is not fully paid. */
  lemma SavedYetBlockIncomplete(db: Db, person: Person, pay: Payment, monthId: nat)
    requires person in db.people.rows.Values
    requires pay in db.payments.rows.Values && ForPair(pay, person.id, monthId)
    requires IsSavedRow(pay) && IsUnpaidRow(pay)
    ensures IsPaymentSaved(db, person.id, monthId)
    ensures !IsBlockFullyPaid(db, person.blockId, monthId)
  {
    assert PersonUnpaid(db, person.id, monthId);
  }

  /** Such rows exist: both fields enabled, one amount "150", the other empty. */
  lemma SavedAndUnpaidRow(personId: nat, monthId: nat, now: int)
    ensures var pay := Payment(UNASSIGNED, personId, monthId, "150", "", true, true, now, now);
      IsSavedRow(pay) && IsUnpaidRow(pay)
  {
  }

  /** A default payment is neither saved nor paid. */
  lemma DefaultPaymentUnpaid(personId: nat, monthId: nat, now: int)
    ensures !IsSavedRow(DefaultPayment(personId, monthId, now))
    ensures IsUnpaidRow(DefaultPayment(personId, monthId, now))
  {
  }

  /** removePaymentByPersonAndMonth: afterwards the person is not saved and
      the person's block is not fully paid for the month. */
  lemma RemoveThenUnpaid(db: Db, personId: nat, monthId: nat)
    ensures !IsPaymentSaved(DeletePaymentByPersonAndMonth(db, personId, monthId), personId, monthId)
    ensures var after := DeletePaymentByPersonAndMonth(db, personId, monthId);
      forall p :: p in after.people.rows.Values && p.id == personId ==> !IsBlockFullyPaid(after, p.blockId, monthId)
  {
    var after := DeletePaymentByPersonAndMonth(db, personId, monthId);
    forall pay | pay in after.payments.rows.Values ensures !ForPair(pay, personId, monthId) {
      var k :| k in after.payments.rows && after.payments.rows[k] == pay;
    }
    assert PersonUnpaid(after, personId, monthId);
  }

  /** Saving the same content twice leaves one row for the pair, carrying
      that content, and the saved status the content gives. */
  lemma SaveTwice(db: Db, pay: Payment)
    requires ReplacePayment(db, pay).Done?
    ensures ReplacePayment(ReplacePayment(db, pay).value.db, pay).Done?
    ensures var first := ReplacePayment(db, pay).value.db;
      var second := ReplacePayment(first, pay).value;
      && (forall k :: k in second.db.payments.rows && ForPair(second.db.payments.rows[k], pay.personId, pay.monthId) <==> k == second.id)
      && second.db.payments.rows[second.id] == pay.(id := second.id)
      && IsPaymentSaved(first, pay.personId, pay.monthId) == IsSavedRow(pay)
      && IsPaymentSaved(second.db, pay.personId, pay.monthId) == IsSavedRow(pay)
  {
    var ins1 := ReplacePayment(db, pay).value;
    ReplacePaymentOneRow(db, pay);
    SavedOnlyByRow(ins1.db, pay.(id := ins1.id), ins1.id);
    var ins2 := ReplacePayment(ins1.db, pay).value;
    ReplacePaymentOneRow(ins1.db, pay);
    SavedOnlyByRow(ins2.db, pay.(id := ins2.id), ins2.id);
  }

  /** With an explicit id, the second save of the same content changes nothing. */
  lemma SaveTwiceWithIdUnchanged(db: Db, pay: Payment)
    requires pay.id != UNASSIGNED
    requires ReplacePayment(db, pay).Done?
    ensures ReplacePayment(ReplacePayment(db, pay).value.db, pay) == Done(ReplacePayment(db, pay).value)
  {
    var ins := ReplacePayment(db, pay).value;
    assert ins.id == pay.id && ins.db.payments.rows[pay.id] == pay;
    ResaveStoredRow(ins.db, pay);
  }

  /** Saving a row that is already stored, alone for its pair and under its
      own id, gives back the same database. */
  lemma ResaveStoredRow(db: Db, pay: Payment)
    requires pay.id != UNASSIGNED
    requires pay.personId in db.people.rows && pay.monthId in db.months.rows
    requires pay.id in db.payments.rows && db.payments.rows[pay.id] == pay
    requires forall k :: k in db.payments.rows && k != pay.id ==>
      db.payments.rows[k].id != pay.id && !ForPair(db.payments.rows[k], pay.personId, pay.monthId)
    ensures ReplacePayment(db, pay) == Done(Inserted(db, pay.id))
  {
    var drop := (q: Payment) => q.id == pay.id || ForPair(q, pay.personId, pay.monthId);
    var kept := DeleteWhere(db.payments, drop);
    assert kept.rows == db.payments.rows - {pay.id};
    var put := Put(kept, pay.id, pay);
    assert put.rows == db.payments.rows;
    assert put.next == db.payments.next;
    assert put == db.payments;
    assert ReplacePayment(db, pay) == Done(Inserted(db.(payments := put), pay.id));
  }

  /** When one row is the only row of its pair, the pair's saved status is that row's. */
  lemma SavedOnlyByRow(db: Db, pay: Payment, id: nat)
    requires id in db.payments.rows && db.payments.rows[id] == pay
    requires forall k :: k in db.payments.rows && ForPair(db.payments.rows[k], pay.personId, pay.monthId) ==> k == id
    ensures IsPaymentSaved(db, pay.personId, pay.monthId) == IsSavedRow(pay)
  {
    assert pay in db.payments.rows.Values;
    if IsPaymentSaved(db, pay.personId, pay.monthId) {
      var q :| q in db.payments.rows.Values && ForPair(q, pay.personId, pay.monthId) && IsSavedRow(q);
      var k :| k in db.payments.rows && db.payments.rows[k] == q;
    }
  }
}
