/** The person selection screen's view model (KisiSecimViewModel): the people
    of one block with whether each has a payment shown for the selected
    month, and the add, rename and delete actions. */
module KisiSecimEkran {
  import opened Entities
  import opened Options
  import opened Database
  import opened AppDatabase
  import opened KotlinText
  import opened StatusMaps
  import opened ScreenLookups
  import MonthDao
  import PersonDao
  import PersonRepository
  import PaymentDao
  import PaymentRepository

  datatype KisiSecimUiState = KisiSecimUiState(
    site: Option<Site>,
    month: Option<Month>,
    block: Option<Block>,
    people: seq<Person>,
    peopleStatus: map<nat, bool>,
    isLoading: bool,
    errorMessage: Option<string>)

  const SITE_NOT_FOUND: string := "Site bulunamadı"
  const MONTH_NOT_FOUND: string := "Ay bulunamadı"
  const BLOCK_NOT_FOUND: string := "Blok bulunamadı"
  const PERSON_TAKEN: string := "Bu kişi adı zaten mevcut"
  const ADD_FAILED: string := "Kişi eklenirken hata oluştu"
  const UPDATE_FAILED: string := "Kişi güncellenirken hata oluştu"

  /** The state a new view model starts from (the data class defaults). */
  function InitialState(): KisiSecimUiState {
    KisiSecimUiState(None, None, None, [], map[], false, None)
  }

  /** The collector's pair of ids: the block whose people and the month whose payments it follows. */
  datatype Observed = Observed(blockId: nat, monthId: nat)

  /** An amount the screen shows: not blank and not the literal "0". */
  predicate ShowsAmount(amount: string) {
    !IsBlank(amount) && amount != "0"
  }

  /** The test inside `payments.any`: the row is the person's and an enabled field shows an amount. */
  predicate IsShownPayment(pay: Payment, personId: nat) {
    && pay.personId == personId
    && ((pay.isPaidEnabled && ShowsAmount(pay.paidAmount)) || (pay.isWillPayEnabled && ShowsAmount(pay.willPayAmount)))
  }

  /** `payments.any { ... }`, walking the list from its head. */
  function HasShownPayment(payments: seq<Payment>, personId: nat): (r: bool)
    ensures r <==> exists i :: 0 <= i < |payments| && IsShownPayment(payments[i], personId)
  {
    if payments == [] then false
    else if IsShownPayment(payments[0], personId) then true
    else
      var r := HasShownPayment(payments[1..], personId);
      assert r <==> exists i :: 1 <= i < |payments| && IsShownPayment(payments[i], personId) by {
        if r {
          var i :| 0 <= i < |payments[1..]| && IsShownPayment(payments[1..][i], personId);
          assert payments[i + 1] == payments[1..][i];
        }
        forall i | 1 <= i < |payments| && IsShownPayment(payments[i], personId) ensures r {
          assert payments[1..][i - 1] == payments[i];
        }
      }
      r
  }

  /** A shown amount is an amount to the SQL as well: a row the screen shows is a saved row. */
  lemma ShownIsSaved(pay: Payment, personId: nat)
    requires IsShownPayment(pay, personId)
    ensures PaymentDao.IsSavedRow(pay) && pay.personId == personId
  {
    assert IsBlank("");
  }

  /** The converse fails: an enabled amount of a single space is saved for
      the SQL but blank for the screen. */
  lemma BlankAmountSavedNotShown(personId: nat, monthId: nat, now: int)
    ensures var pay := Payment(0, personId, monthId, " ", "0", true, false, now, now);
      PaymentDao.IsSavedRow(pay) && !IsShownPayment(pay, personId)
  {
    assert IsWhitespace(" "[0]);
  }

  function PersonIdOf(p: Person): nat {
    p.id
  }

  /** The status the collector computes for a person id from the month's payments. */
  function ShownTest(payments: seq<Payment>): nat -> bool {
    (k: nat) => HasShownPayment(payments, k)
  }

  /** The state observePeopleAndPayments settles on: the block's people,
      oldest first, and for each whether some payment of the month is shown. */
  function PeopleEmission(state: KisiSecimUiState, db: Db, blockId: nat, monthId: nat): KisiSecimUiState {
    var people := PersonDao.PeopleByBlock(db, blockId);
    var payments := PaymentDao.PaymentsByMonth(db, monthId);
    state.(people := people, peopleStatus := StatusMap(people, PersonIdOf, ShownTest(payments)))
  }

  /** The emission a running collector makes, if there is one. */
  function AfterEmission(state: KisiSecimUiState, observed: Option<Observed>, db: Db): KisiSecimUiState {
    if observed.Some? then PeopleEmission(state, db, observed.value.blockId, observed.value.monthId) else state
  }

  /** Some payment of the month for that person shows an amount. */
  ghost predicate ShownInMonth(db: Db, personId: nat, monthId: nat) {
    exists pay :: pay in db.payments.rows.Values && pay.monthId == monthId && IsShownPayment(pay, personId)
  }

  /** The `any` over the month's payments decides ShownInMonth, and a shown
      person is saved for the month. */
  lemma ShownTestMeaning(db: Db, personId: nat, monthId: nat)
    ensures HasShownPayment(PaymentDao.PaymentsByMonth(db, monthId), personId) <==> ShownInMonth(db, personId, monthId)
    ensures ShownInMonth(db, personId, monthId) ==> PaymentRepository.IsPaymentSaved(db, personId, monthId)
  {
    var payments := PaymentDao.PaymentsByMonth(db, monthId);
    if HasShownPayment(payments, personId) {
      var i :| 0 <= i < |payments| && IsShownPayment(payments[i], personId);
      assert payments[i] in payments;
    }
    if ShownInMonth(db, personId, monthId) {
      var pay :| pay in db.payments.rows.Values && pay.monthId == monthId && IsShownPayment(pay, personId);
      var i :| 0 <= i < |payments| && payments[i] == pay;
      ShownIsSaved(pay, personId);
    }
  }

  /** The status map holds exactly the listed people, who are the block's;
      a person is marked exactly when a row of the month for them shows an
      amount, and a marked person is saved for the month. */
  lemma PeopleStatusMeaning(state: KisiSecimUiState, db: Db, blockId: nat, monthId: nat)
    ensures var after := PeopleEmission(state, db, blockId, monthId);
      && (forall p :: p in after.people <==> p in db.people.rows.Values && p.blockId == blockId)
      && (forall k :: k in after.peopleStatus <==> exists p :: p in after.people && p.id == k)
      && (forall k :: k in after.peopleStatus ==> (after.peopleStatus[k] <==> ShownInMonth(db, k, monthId)))
      && (forall k :: k in after.peopleStatus && after.peopleStatus[k] ==> PaymentRepository.IsPaymentSaved(db, k, monthId))
  {
    var people := PersonDao.PeopleByBlock(db, blockId);
    var payments := PaymentDao.PaymentsByMonth(db, monthId);
    StatusMapKeys(people, PersonIdOf, ShownTest(payments));
    assert forall p :: p in people ==> PersonIdOf(p) == p.id;
    forall k | k in StatusMap(people, PersonIdOf, ShownTest(payments)) {
      ShownTestMeaning(db, k, monthId);
    }
  }

  /** A person just added is listed at the next emission, unmarked: no
      payment row refers to a new person. */
  lemma AddedPersonShownUnpaid(state: KisiSecimUiState, db: Db, person: Person, monthId: nat)
    requires db.Valid()
    requires PersonDao.InsertPerson(db, person).Done?
    ensures var ins := PersonDao.InsertPerson(db, person).value;
      var after := PeopleEmission(state, ins.db, person.blockId, monthId);
      && person.(id := ins.id) in after.people
      && ins.id in after.peopleStatus && !after.peopleStatus[ins.id]
  {
    var ins := PersonDao.InsertPerson(db, person).value;
    PersonDao.InsertPersonThenListed(db, person);
    var people := PersonDao.PeopleByBlock(ins.db, person.blockId);
    var payments := PaymentDao.PaymentsByMonth(ins.db, monthId);
    StatusMapKeys(people, PersonIdOf, ShownTest(payments));
    assert PersonIdOf(person.(id := ins.id)) == ins.id;
    ShownTestMeaning(ins.db, ins.id, monthId);
    assert ins.db.payments == db.payments;
    assert !ShownInMonth(ins.db, ins.id, monthId) by {
      forall pay | pay in db.payments.rows.Values ensures pay.personId != ins.id {
        var k :| k in db.payments.rows && db.payments.rows[k] == pay;
      }
    }
  }

  class KisiSecimViewModel {
    const store: Store
    const siteName: string
    const selectedMonthId: nat
    const selectedBlock: string
    var uiState: KisiSecimUiState
    /** What the running observePeopleAndPayments collector follows, once started. */
    var observed: Option<Observed>

    /** Creation runs loadInitialData. */
    constructor (store: Store, siteName: string, selectedMonthId: nat, selectedBlock: string)
      ensures this.store == store && this.siteName == siteName
      ensures this.selectedMonthId == selectedMonthId && this.selectedBlock == selectedBlock
      ensures var db := store.Snapshot();
        var site := SiteByName(db, siteName);
        var month := MonthDao.MonthById(db, selectedMonthId);
        && (site.None? ==> uiState == InitialState().(errorMessage := Some(SITE_NOT_FOUND)))
        && (site.Some? && month.None? ==> uiState == InitialState().(errorMessage := Some(MONTH_NOT_FOUND)))
        && (site.Some? && month.Some? ==>
              var block := BlockOfSiteByName(db, site.value.id, selectedBlock);
              && (block.None? ==> uiState == InitialState().(errorMessage := Some(BLOCK_NOT_FOUND)))
              && (block.Some? ==>
                    uiState == PeopleEmission(InitialState().(site := site, month := month, block := block),
                      db, block.value.id, month.value.id)))
    {
      this.store := store;
      this.siteName := siteName;
      this.selectedMonthId := selectedMonthId;
      this.selectedBlock := selectedBlock;
      uiState := InitialState();
      observed := None;
      new;
      LoadInitialData();
    }

    /** loadInitialData: finds the site by name, the selected month by id and
        the block of the site by name, and starts following the block's
        people and the month's payments. */
    method LoadInitialData()
      modifies this
      ensures var db := store.Snapshot();
        var site := SiteByName(db, siteName);
        var month := MonthDao.MonthById(db, selectedMonthId);
        && (site.None? ==>
              uiState == old(uiState).(isLoading := false, errorMessage := Some(SITE_NOT_FOUND))
              && observed == old(observed))
        && (site.Some? && month.None? ==>
              uiState == old(uiState).(isLoading := false, errorMessage := Some(MONTH_NOT_FOUND))
              && observed == old(observed))
        && (site.Some? && month.Some? ==>
              var block := BlockOfSiteByName(db, site.value.id, selectedBlock);
              && (block.None? ==>
                    uiState == old(uiState).(isLoading := false, errorMessage := Some(BLOCK_NOT_FOUND))
                    && observed == old(observed))
              && (block.Some? ==>
                    observed == Some(Observed(block.value.id, month.value.id))
                    && uiState == PeopleEmission(
                         old(uiState).(site := site, month := month, block := block, isLoading := false, errorMessage := None),
                         db, block.value.id, month.value.id)))
    {
      uiState := uiState.(isLoading := true);
      var foundSite := SiteByName(store.Snapshot(), siteName);
      if foundSite.None? {
        uiState := uiState.(isLoading := false, errorMessage := Some(SITE_NOT_FOUND));
        return;
      }
      var foundMonth := MonthDao.MonthById(store.Snapshot(), selectedMonthId);
      if foundMonth.None? {
        uiState := uiState.(isLoading := false, errorMessage := Some(MONTH_NOT_FOUND));
        return;
      }
      var foundBlock := BlockOfSiteByName(store.Snapshot(), foundSite.value.id, selectedBlock);
      if foundBlock.None? {
        uiState := uiState.(isLoading := false, errorMessage := Some(BLOCK_NOT_FOUND));
        return;
      }
      uiState := uiState.(site := foundSite, month := foundMonth, block := foundBlock, isLoading := false, errorMessage := None);
      ObservePeopleAndPayments(foundBlock.value.id, foundMonth.value.id);
    }

    /** observePeopleAndPayments: starts the collector and takes its first emission. */
    method ObservePeopleAndPayments(blockId: nat, monthId: nat)
      modifies this
      ensures observed == Some(Observed(blockId, monthId))
      ensures uiState == PeopleEmission(old(uiState), store.Snapshot(), blockId, monthId)
    {
      observed := Some(Observed(blockId, monthId));
      Emit();
    }

    /** One emission of the running collector: the people and the month's
        payments are read again and the status of each person recomputed. */
    method Emit()
      modifies this
      ensures observed == old(observed)
      ensures uiState == AfterEmission(old(uiState), observed, store.Snapshot())
    {
      if observed.Some? {
        var db := store.Snapshot();
        var people := PersonDao.PeopleByBlock(db, observed.value.blockId);
        var payments := PaymentDao.PaymentsByMonth(db, observed.value.monthId);
        var statusMap := BuildStatusMap(people, PersonIdOf, ShownTest(payments));
        uiState := uiState.(people := people, peopleStatus := statusMap);
      }
    }

    /** addPerson: with a block loaded, refuses a name the block already has;
        otherwise inserts the person and the collector re-emits. */
    method AddPerson(personName: string, now: int)
      requires store.Valid()
      modifies this, store
      ensures store.Valid()
      ensures observed == old(observed)
      ensures old(uiState.block).None? ==> store.Snapshot() == old(store.Snapshot()) && uiState == old(uiState)
      ensures old(uiState.block).Some? ==>
        var db := old(store.Snapshot());
        var block := old(uiState.block.value);
        var o := PersonDao.InsertPerson(db, NewPerson(block.id, personName, now));
        && (PersonRepository.IsPersonNameExists(db, block.id, personName) ==>
              store.Snapshot() == db && uiState == old(uiState).(errorMessage := Some(PERSON_TAKEN)))
        && (!PersonRepository.IsPersonNameExists(db, block.id, personName) && o.Failed? ==>
              store.Snapshot() == db && uiState == old(uiState).(errorMessage := Some(ADD_FAILED)))
        && (!PersonRepository.IsPersonNameExists(db, block.id, personName) && o.Done? ==>
              store.Snapshot() == o.value.db && uiState == AfterEmission(old(uiState), observed, store.Snapshot()))
    {
      if uiState.block.None? {
        return;
      }
      var block := uiState.block.value;
      if PersonRepository.IsPersonNameExists(store.Snapshot(), block.id, personName) {
        uiState := uiState.(errorMessage := Some(PERSON_TAKEN));
        return;
      }
      var r := store.InsertPerson(NewPerson(block.id, personName, now));
      if r.Failed? {
        uiState := uiState.(errorMessage := Some(ADD_FAILED));
      } else {
        Emit();
      }
    }

    /** updatePerson: with a block loaded, refuses a name another person of
        the block has; otherwise stores the person under the new name and the
        collector re-emits. */
    method UpdatePerson(person: Person, newName: string)
      requires store.Valid()
      modifies this, store
      ensures store.Valid()
      ensures observed == old(observed)
      ensures old(uiState.block).None? ==> store.Snapshot() == old(store.Snapshot()) && uiState == old(uiState)
      ensures old(uiState.block).Some? ==>
        var db := old(store.Snapshot());
        var block := old(uiState.block.value);
        var o := PersonDao.UpdatePerson(db, person.(name := newName));
        && (PersonRepository.IsPersonNameExistsForUpdate(db, block.id, newName, person.id) ==>
              store.Snapshot() == db && uiState == old(uiState).(errorMessage := Some(PERSON_TAKEN)))
        && (!PersonRepository.IsPersonNameExistsForUpdate(db, block.id, newName, person.id) && o.Failed? ==>
              store.Snapshot() == db && uiState == old(uiState).(errorMessage := Some(UPDATE_FAILED)))
        && (!PersonRepository.IsPersonNameExistsForUpdate(db, block.id, newName, person.id) && o.Done? ==>
              store.Snapshot() == o.value && uiState == AfterEmission(old(uiState), observed, store.Snapshot()))
    {
      if uiState.block.None? {
        return;
      }
      var block := uiState.block.value;
      if PersonRepository.IsPersonNameExistsForUpdate(store.Snapshot(), block.id, newName, person.id) {
        uiState := uiState.(errorMessage := Some(PERSON_TAKEN));
        return;
      }
      var r := store.UpdatePerson(person.(name := newName));
      if r.Failed? {
        uiState := uiState.(errorMessage := Some(UPDATE_FAILED));
      } else {
        Emit();
      }
    }

    /** deletePerson: removes the person and their payments; the collector re-emits. */
    method DeletePerson(personId: nat)
      requires store.Valid()
      modifies this, store
      ensures store.Valid()
      ensures observed == old(observed)
      ensures store.Snapshot() == PersonDao.DeletePerson(old(store.Snapshot()), personId)
      ensures uiState == AfterEmission(old(uiState), observed, store.Snapshot())
    {
      store.DeletePerson(personId);
      Emit();
    }

    method ClearError()
      modifies this
      ensures uiState == old(uiState).(errorMessage := None)
      ensures observed == old(observed)
    {
      uiState := uiState.(errorMessage := None);
    }
  }
}
