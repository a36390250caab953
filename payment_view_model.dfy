/** The payment screen's view model (OdemeViewModel): the payment of one
    person for one month, saved from the form's amounts and flags, or reset. */
module OdemeEkran {
  import opened Entities
  import opened Options
  import opened Database
  import opened AppDatabase
  import opened ScreenLookups
  import MonthDao
  import PersonDao
  import PaymentDao
  import PaymentRepository

  datatype OdemeUiState = OdemeUiState(
    site: Option<Site>,
    month: Option<Month>,
    person: Option<Person>,
    currentPayment: Option<Payment>,
    isLoading: bool,
    errorMessage: Option<string>)

  const SITE_NOT_FOUND: string := "Site bulunamadı"
  const MONTH_NOT_FOUND: string := "Ay bulunamadı"
  const PERSON_NOT_FOUND: string := "Kişi bulunamadı"
  const SAVE_FAILED: string := "Ödeme kaydedilirken hata oluştu: "

  /** The state a new view model starts from (the data class defaults). */
  function InitialState(): OdemeUiState {
    OdemeUiState(None, None, None, None, false, None)
  }

  /** The payment savePayment builds: the current payment's id (0 without
      one), the person and month of the screen, each amount as typed when its
      flag is on and "0" when it is off, the flags as given, and both
      timestamps from the construction time. */
  function NewPayment(current: Option<Payment>, personId: nat, monthId: nat,
                      paidAmount: string, willPayAmount: string,
                      isPaidEnabled: bool, isWillPayEnabled: bool, now: int): (pay: Payment)
    ensures pay.id == (if current.Some? then current.value.id else UNASSIGNED)
    ensures PaymentDao.ForPair(pay, personId, monthId)
    ensures pay.isPaidEnabled == isPaidEnabled && pay.isWillPayEnabled == isWillPayEnabled
    ensures !isPaidEnabled ==> PaymentDao.IsZeroAmount(pay.paidAmount)
    ensures !isWillPayEnabled ==> PaymentDao.IsZeroAmount(pay.willPayAmount)
    ensures PaymentDao.IsSavedRow(pay) <==>
      (isPaidEnabled && !PaymentDao.IsZeroAmount(paidAmount)) || (isWillPayEnabled && !PaymentDao.IsZeroAmount(willPayAmount))
    ensures PaymentDao.IsUnpaidRow(pay) <==>
      || (!isPaidEnabled && !isWillPayEnabled)
      || (isPaidEnabled && PaymentDao.IsZeroAmount(paidAmount))
      || (isWillPayEnabled && PaymentDao.IsZeroAmount(willPayAmount))
  {
    Payment(
      if current.Some? then current.value.id else UNASSIGNED,
      personId, monthId,
      if isPaidEnabled then paidAmount else "0",
      if isWillPayEnabled then willPayAmount else "0",
      isPaidEnabled, isWillPayEnabled, now, now)
  }

  /** What is typed into a field whose flag is off does not reach the store:
      payments built from inputs that agree on the enabled fields are equal. */
  lemma DisabledAmountIgnored(current: Option<Payment>, personId: nat, monthId: nat,
                              paid1: string, paid2: string, will1: string, will2: string,
                              isPaidEnabled: bool, isWillPayEnabled: bool, now: int)
    requires !isPaidEnabled || paid1 == paid2
    requires !isWillPayEnabled || will1 == will2
    ensures NewPayment(current, personId, monthId, paid1, will1, isPaidEnabled, isWillPayEnabled, now)
         == NewPayment(current, personId, monthId, paid2, will2, isPaidEnabled, isWillPayEnabled, now)
  {
  }

  /** With both flags off the payment holds "0" twice whatever was typed:
      it is not saved and counts as unpaid. */
  lemma BothOffStoresZeros(current: Option<Payment>, personId: nat, monthId: nat,
                           paidAmount: string, willPayAmount: string, now: int)
    ensures var pay := NewPayment(current, personId, monthId, paidAmount, willPayAmount, false, false, now);
      pay.paidAmount == "0" && pay.willPayAmount == "0"
      && !PaymentDao.IsSavedRow(pay) && PaymentDao.IsUnpaidRow(pay)
  {
  }

  /** After a successful save the pair's one row is the built payment, under
      the id the store chose; that id is the payment's own unless it was 0,
      in which case it is a fresh one, so the screen's copy (id 0) and the
      stored row differ in their id only. */
  lemma SavedPaymentStored(db: Db, pay: Payment)
    requires PaymentDao.ReplacePayment(db, pay).Done?
    ensures var ins := PaymentDao.ReplacePayment(db, pay).value;
      && PaymentDao.PaymentByPersonAndMonth(ins.db, pay.personId, pay.monthId) == Some(pay.(id := ins.id))
      && (pay.id != UNASSIGNED ==> ins.id == pay.id)
      && (pay.id == UNASSIGNED ==> ins.id != UNASSIGNED)
      && PaymentRepository.IsPaymentSaved(ins.db, pay.personId, pay.monthId) == PaymentDao.IsSavedRow(pay)
  {
    var ins := PaymentDao.ReplacePayment(db, pay).value;
    PaymentDao.ReplacePaymentOneRow(db, pay);
    PaymentRepository.SavedOnlyByRow(ins.db, pay.(id := ins.id), ins.id);
  }

  class OdemeViewModel {
    const store: Store
    const siteName: string
    const selectedMonthId: nat
    const selectedPersonId: nat
    var uiState: OdemeUiState

    /** Creation runs loadData. */
    constructor (store: Store, siteName: string, selectedMonthId: nat, selectedPersonId: nat)
      ensures this.store == store && this.siteName == siteName
      ensures this.selectedMonthId == selectedMonthId && this.selectedPersonId == selectedPersonId
      ensures var db := store.Snapshot();
        var site := SiteByName(db, siteName);
        var month := MonthDao.MonthById(db, selectedMonthId);
        var person := PersonDao.PersonById(db, selectedPersonId);
        && (site.None? ==> uiState == InitialState().(errorMessage := Some(SITE_NOT_FOUND)))
        && (site.Some? && month.None? ==> uiState == InitialState().(errorMessage := Some(MONTH_NOT_FOUND)))
        && (site.Some? && month.Some? && person.None? ==> uiState == InitialState().(errorMessage := Some(PERSON_NOT_FOUND)))
        && (site.Some? && month.Some? && person.Some? ==>
              uiState == InitialState().(site := site, month := month, person := person,
                currentPayment := PaymentDao.PaymentByPersonAndMonth(db, person.value.id, month.value.id)))
    {
      this.store := store;
      this.siteName := siteName;
      this.selectedMonthId := selectedMonthId;
      this.selectedPersonId := selectedPersonId;
      uiState := InitialState();
      new;
      LoadData();
    }

    /** loadData: finds the site by name, the month and the person by id, and
        reads the person's payment for the month. The month is not checked to
        belong to the site. */
    method LoadData()
      modifies this
      ensures var db := store.Snapshot();
        var site := SiteByName(db, siteName);
        var month := MonthDao.MonthById(db, selectedMonthId);
        var person := PersonDao.PersonById(db, selectedPersonId);
        && (site.None? ==> uiState == old(uiState).(isLoading := false, errorMessage := Some(SITE_NOT_FOUND)))
        && (site.Some? && month.None? ==>
              uiState == old(uiState).(isLoading := false, errorMessage := Some(MONTH_NOT_FOUND)))
        && (site.Some? && month.Some? && person.None? ==>
              uiState == old(uiState).(isLoading := false, errorMessage := Some(PERSON_NOT_FOUND)))
        && (site.Some? && month.Some? && person.Some? ==>
              uiState == old(uiState).(site := site, month := month, person := person,
                currentPayment := PaymentDao.PaymentByPersonAndMonth(db, person.value.id, month.value.id),
                isLoading := false, errorMessage := None))
    {
      uiState := uiState.(isLoading := true);
      var db := store.Snapshot();
      var foundSite := SiteByName(db, siteName);
      if foundSite.None? {
        uiState := uiState.(isLoading := false, errorMessage := Some(SITE_NOT_FOUND));
        return;
      }
      var foundMonth := MonthDao.MonthById(db, selectedMonthId);
      if foundMonth.None? {
        uiState := uiState.(isLoading := false, errorMessage := Some(MONTH_NOT_FOUND));
        return;
      }
      var foundPerson := PersonDao.PersonById(db, selectedPersonId);
      if foundPerson.None? {
        uiState := uiState.(isLoading := false, errorMessage := Some(PERSON_NOT_FOUND));
        return;
      }
      var currentPayment := PaymentDao.PaymentByPersonAndMonth(db, foundPerson.value.id, foundMonth.value.id);
      uiState := uiState.(site := foundSite, month := foundMonth, person := foundPerson,
        currentPayment := currentPayment, isLoading := false, errorMessage := None);
    }

    /** savePayment: with a person and a month loaded, stores the built
        payment with REPLACE and keeps it as the current payment; the id the
        store returns is not kept. A refused write sets the error text. */
    method SavePayment(paidAmount: string, willPayAmount: string, isPaidEnabled: bool, isWillPayEnabled: bool, now: int)
      requires store.Valid()
      modifies this, store
      ensures store.Valid()
      ensures old(uiState.person).None? || old(uiState.month).None? ==>
        store.Snapshot() == old(store.Snapshot()) && uiState == old(uiState)
      ensures old(uiState.person).Some? && old(uiState.month).Some? ==>
        var pay := NewPayment(old(uiState.currentPayment), old(uiState.person.value.id), old(uiState.month.value.id),
          paidAmount, willPayAmount, isPaidEnabled, isWillPayEnabled, now);
        var o := PaymentDao.ReplacePayment(old(store.Snapshot()), pay);
        && (o.Failed? ==>
              store.Snapshot() == old(store.Snapshot())
              && uiState == old(uiState).(errorMessage := Some(SAVE_FAILED + ExceptionMessage(o.error))))
        && (o.Done? ==> store.Snapshot() == o.value.db && uiState == old(uiState).(currentPayment := Some(pay)))
    {
      if uiState.person.None? || uiState.month.None? {
        return;
      }
      var pay := NewPayment(uiState.currentPayment, uiState.person.value.id, uiState.month.value.id,
        paidAmount, willPayAmount, isPaidEnabled, isWillPayEnabled, now);
      var r := store.ReplacePayment(pay);
      if r.Failed? {
        uiState := uiState.(errorMessage := Some(SAVE_FAILED + ExceptionMessage(r.error)));
      } else {
        uiState := uiState.(currentPayment := Some(pay));
      }
    }

    /** resetPayment: with a person and a month loaded, removes their payment
        row and clears the current payment. */
    method ResetPayment()
      requires store.Valid()
      modifies this, store
      ensures store.Valid()
      ensures old(uiState.person).None? || old(uiState.month).None? ==>
        store.Snapshot() == old(store.Snapshot()) && uiState == old(uiState)
      ensures old(uiState.person).Some? && old(uiState.month).Some? ==>
        && store.Snapshot() == PaymentDao.DeletePaymentByPersonAndMonth(old(store.Snapshot()),
             old(uiState.person.value.id), old(uiState.month.value.id))
        && uiState == old(uiState).(currentPayment := None)
    {
      if uiState.person.None? || uiState.month.None? {
        return;
      }
      store.DeletePaymentByPersonAndMonth(uiState.person.value.id, uiState.month.value.id);
      uiState := uiState.(currentPayment := None);
    }

    method ClearError()
      modifies this
      ensures uiState == old(uiState).(errorMessage := None)
    {
      uiState := uiState.(errorMessage := None);
    }
  }
}
