/** The month selection screen's view model (AySecimViewModel): the months
    of one site with their "fully paid" status, and the add, change and
    delete actions; a month is named from its number and year. */
module AySecimEkran {
  import opened Entities
  import opened Options
  import opened Database
  import opened AppDatabase
  import opened KotlinText
  import opened StatusMaps
  import opened ScreenLookups
  import MonthDao
  import MonthRepository
  import PaymentDao
  import PaymentRepository

  datatype AySecimUiState = AySecimUiState(
    site: Option<Site>,
    months: seq<Month>,
    monthsStatus: map<nat, bool>,
    isLoading: bool,
    errorMessage: Option<string>)

  const SITE_NOT_FOUND: string := "Site bulunamadı"
  const MONTH_TAKEN: string := "Bu ay zaten mevcut"
  const ADD_FAILED: string := "Ay eklenirken hata oluştu"
  const UPDATE_FAILED: string := "Ay güncellenirken hata oluştu"

  const MONTH_NAMES: seq<string> := [
    "Ocak", "Şubat", "Mart", "Nisan", "Mayıs", "Haziran",
    "Temmuz", "Ağustos", "Eylül", "Ekim", "Kasım", "Aralık"]

  /** getMonthName: the Turkish name of the month, a space, and the year. */
  function GetMonthName(monthNumber: int, year: int): string
    requires 1 <= monthNumber <= 12
  {
    MONTH_NAMES[monthNumber - 1] + " " + IntToString(year)
  }

  /** The month names hold no space. */
  lemma NamesHaveNoSpace(i: int)
    requires 0 <= i < |MONTH_NAMES|
    ensures forall j :: 0 <= j < |MONTH_NAMES[i]| ==> MONTH_NAMES[i][j] != ' '
  {
  }

  /** The twelve names are different from each other. */
  lemma NamesDistinct(i: int, j: int)
    requires 0 <= i < |MONTH_NAMES| && 0 <= j < |MONTH_NAMES|
    requires MONTH_NAMES[i] == MONTH_NAMES[j]
    ensures i == j
  {
  }

  /** Where the shorter head ends, one string has its space and the other does not. */
  lemma SpaceComesFirst(a1: string, d1: string, a2: string, d2: string)
    requires |a1| < |a2|
    requires forall j :: 0 <= j < |a2| ==> a2[j] != ' '
    ensures a1 + " " + d1 != a2 + " " + d2
  {
    assert (a1 + " " + d1)[|a1|] == ' ';
    assert (a2 + " " + d2)[|a1|] == a2[|a1|];
  }

  /** Two strings "a d" agree only if their space-free heads and their tails do. */
  lemma SplitAtSpace(a1: string, d1: string, a2: string, d2: string)
    requires forall j :: 0 <= j < |a1| ==> a1[j] != ' '
    requires forall j :: 0 <= j < |a2| ==> a2[j] != ' '
    requires a1 + " " + d1 == a2 + " " + d2
    ensures a1 == a2 && d1 == d2
  {
    var s := a1 + " " + d1;
    if |a1| < |a2| {
      SpaceComesFirst(a1, d1, a2, d2);
    } else if |a2| < |a1| {
      SpaceComesFirst(a2, d2, a1, d1);
    }
    assert a1 == s[..|a1|] == a2;
    assert d1 == s[|a1| + 1..] == d2;
  }

  /** The name determines the month number and the year. */
  lemma MonthNameDetermines(n1: int, y1: int, n2: int, y2: int)
    requires 1 <= n1 <= 12 && 1 <= n2 <= 12
    requires GetMonthName(n1, y1) == GetMonthName(n2, y2)
    ensures n1 == n2 && y1 == y2
  {
    NamesHaveNoSpace(n1 - 1);
    NamesHaveNoSpace(n2 - 1);
    SplitAtSpace(MONTH_NAMES[n1 - 1], IntToString(y1), MONTH_NAMES[n2 - 1], IntToString(y2));
    NamesDistinct(n1 - 1, n2 - 1);
    IntToStringInjective(y1, y2);
  }

  /** Every month carries the name its number and year give, as this screen stores them. */
  ghost predicate MonthsWellNamed(db: Db) {
    forall m :: m in db.months.rows.Values ==> 1 <= m.monthNumber <= 12 && m.name == GetMonthName(m.monthNumber, m.year)
  }

  /** With well-named months, the duplicate-name check of addMonth is a
      duplicate (month number, year) check within the site. */
  lemma DuplicateNameIsDuplicateMonth(db: Db, siteId: nat, monthNumber: int, year: int)
    requires MonthsWellNamed(db)
    requires 1 <= monthNumber <= 12
    ensures MonthRepository.IsMonthNameExists(db, siteId, GetMonthName(monthNumber, year)) <==>
      exists m :: m in db.months.rows.Values && m.siteId == siteId && m.monthNumber == monthNumber && m.year == year
  {
    if MonthRepository.IsMonthNameExists(db, siteId, GetMonthName(monthNumber, year)) {
      var m :| m in db.months.rows.Values && m.siteId == siteId && m.name == GetMonthName(monthNumber, year);
      MonthNameDetermines(m.monthNumber, m.year, monthNumber, year);
    }
  }

  /** The months table after `k` is set to `month`, a well-named month, is still well named. */
  lemma StoredMonthKeepsWellNamed(db: Db, after: Db, k: nat, month: Month)
    requires MonthsWellNamed(db)
    requires 1 <= month.monthNumber <= 12 && month.name == GetMonthName(month.monthNumber, month.year)
    requires after.months.rows == db.months.rows[k := month]
    ensures MonthsWellNamed(after)
  {
    forall m | m in after.months.rows.Values ensures 1 <= m.monthNumber <= 12 && m.name == GetMonthName(m.monthNumber, m.year) {
      var j :| j in after.months.rows && after.months.rows[j] == m;
      if j != k {
        assert db.months.rows[j] in db.months.rows.Values;
      }
    }
  }
  /** Inserting a well-named month keeps every month well named. */
  lemma InsertKeepsWellNamed(db: Db, month: Month)
    requires 1 <= month.monthNumber <= 12 && month.name == GetMonthName(month.monthNumber, month.year)
    ensures MonthsWellNamed(db) && MonthDao.InsertMonth(db, month).Done? ==>
      MonthsWellNamed(MonthDao.InsertMonth(db, month).value.db)
  {
    if MonthsWellNamed(db) && MonthDao.InsertMonth(db, month).Done? {
      var ins := MonthDao.InsertMonth(db, month).value;
      StoredMonthKeepsWellNamed(db, ins.db, ins.id, month.(id := ins.id));
    }
  }

  /** Updating to a well-named month keeps every month well named. */
  lemma UpdateKeepsWellNamed(db: Db, month: Month)
    requires 1 <= month.monthNumber <= 12 && month.name == GetMonthName(month.monthNumber, month.year)
    ensures MonthsWellNamed(db) && MonthDao.UpdateMonth(db, month).Done? ==>
      MonthsWellNamed(MonthDao.UpdateMonth(db, month).value)
  {
    if MonthsWellNamed(db) && MonthDao.UpdateMonth(db, month).Done? && month.id in db.months.rows {
      StoredMonthKeepsWellNamed(db, MonthDao.UpdateMonth(db, month).value, month.id, month);
    }
  }


  /** Removing months keeps the store well named. */
  lemma RemovedMonthsKeepWellNamed(db: Db, after: Db)
    requires MonthsWellNamed(db)
    requires forall k :: k in after.months.rows ==> k in db.months.rows && after.months.rows[k] == db.months.rows[k]
    ensures MonthsWellNamed(after)
  {
    forall m | m in after.months.rows.Values ensures 1 <= m.monthNumber <= 12 && m.name == GetMonthName(m.monthNumber, m.year) {
      var j :| j in after.months.rows && after.months.rows[j] == m;
      assert db.months.rows[j] in db.months.rows.Values;
    }
  }

  function MonthIdOf(m: Month): nat {
    m.id
  }

  /** isMonthFullyPaidInSite(siteId, month.id), as a test on the month id. */
  function MonthPaidTest(db: Db, siteId: nat): nat -> bool {
    (k: nat) => PaymentRepository.IsMonthFullyPaidInSite(db, siteId, k)
  }

  /** The state observeMonthsAndPayments settles on: the site's months as
      listed, and for each the value of isMonthFullyPaidInSite. */
  function MonthsEmission(state: AySecimUiState, db: Db, siteId: nat): AySecimUiState {
    var months := MonthDao.MonthsBySite(db, siteId);
    state.(months := months, monthsStatus := StatusMap(months, MonthIdOf, MonthPaidTest(db, siteId)))
  }

  /** The emission a running collector makes, if there is one. */
  function AfterEmission(state: AySecimUiState, observed: Option<nat>, db: Db): AySecimUiState {
    if observed.Some? then MonthsEmission(state, db, observed.value) else state
  }

  /** The status map holds exactly the listed months, which are the site's,
      each with whether every block of the site is fully paid for it. */
  lemma MonthsStatusMeaning(state: AySecimUiState, db: Db, siteId: nat)
    ensures var after := MonthsEmission(state, db, siteId);
      && (forall m :: m in after.months <==> m in db.months.rows.Values && m.siteId == siteId)
      && (forall k :: k in after.monthsStatus <==> exists m :: m in after.months && m.id == k)
      && (forall k :: k in after.monthsStatus ==>
            (after.monthsStatus[k] <==> forall b :: b in db.blocks.rows.Values && b.siteId == siteId ==>
              PaymentRepository.IsBlockFullyPaid(db, b.id, k)))
  {
    var months := MonthDao.MonthsBySite(db, siteId);
    StatusMapKeys(months, MonthIdOf, MonthPaidTest(db, siteId));
    assert forall m :: m in months ==> MonthIdOf(m) == m.id;
  }

  class AySecimViewModel {
    const store: Store
    const siteName: string
    var uiState: AySecimUiState
    /** The site whose months the running observeMonthsAndPayments collector follows, once started. */
    var observedSiteId: Option<nat>

    /** Creation runs loadInitialData. */
    constructor (store: Store, siteName: string)
      ensures this.store == store && this.siteName == siteName
      ensures var found := SiteByName(store.Snapshot(), siteName);
        && (found.None? ==> uiState == AySecimUiState(None, [], map[], false, Some(SITE_NOT_FOUND)))
        && (found.Some? ==> uiState == MonthsEmission(AySecimUiState(found, [], map[], false, None), store.Snapshot(), found.value.id))
    {
      this.store := store;
      this.siteName := siteName;
      uiState := AySecimUiState(None, [], map[], false, None);
      observedSiteId := None;
      new;
      LoadInitialData();
    }

    /** loadInitialData: finds the site by name and starts following its months. */
    method LoadInitialData()
      modifies this
      ensures var found := SiteByName(store.Snapshot(), siteName);
        && (found.None? ==>
              uiState == old(uiState).(isLoading := false, errorMessage := Some(SITE_NOT_FOUND))
              && observedSiteId == old(observedSiteId))
        && (found.Some? ==>
              observedSiteId == Some(found.value.id)
              && uiState == MonthsEmission(old(uiState).(site := found, isLoading := false, errorMessage := None),
                   store.Snapshot(), found.value.id))
    {
      uiState := uiState.(isLoading := true);
      var foundSite := SiteByName(store.Snapshot(), siteName);
      if foundSite.Some? {
        uiState := uiState.(site := foundSite, isLoading := false, errorMessage := None);
        ObserveMonthsAndPayments(foundSite.value.id);
      } else {
        uiState := uiState.(isLoading := false, errorMessage := Some(SITE_NOT_FOUND));
      }
    }

    /** observeMonthsAndPayments: starts the collector and takes its first emission. */
    method ObserveMonthsAndPayments(siteId: nat)
      modifies this
      ensures observedSiteId == Some(siteId)
      ensures uiState == MonthsEmission(old(uiState), store.Snapshot(), siteId)
    {
      observedSiteId := Some(siteId);
      Emit();
    }

    /** One emission of the running collector: the months are listed again and
        the status of each is recomputed. */
    method Emit()
      modifies this
      ensures observedSiteId == old(observedSiteId)
      ensures uiState == AfterEmission(old(uiState), observedSiteId, store.Snapshot())
    {
      if observedSiteId.Some? {
        var db := store.Snapshot();
        var months := MonthDao.MonthsBySite(db, observedSiteId.value);
        var statusMap := BuildStatusMap(months, MonthIdOf, MonthPaidTest(db, observedSiteId.value));
        uiState := uiState.(months := months, monthsStatus := statusMap);
      }
    }

    /** addMonth: with a site loaded, refuses a month the site already has
        under that name; otherwise inserts the month, named from its number
        and year, and the collector re-emits. A number outside 1..12 makes
        getMonthName index past its list, which the catch reports. */
    method AddMonth(monthNumber: int, year: int, now: int)
      requires store.Valid()
      modifies this, store
      ensures store.Valid()
      ensures observedSiteId == old(observedSiteId)
      ensures old(uiState.site).None? ==> store.Snapshot() == old(store.Snapshot()) && uiState == old(uiState)
      ensures old(uiState.site).Some? && !(1 <= monthNumber <= 12) ==>
        store.Snapshot() == old(store.Snapshot()) && uiState == old(uiState).(errorMessage := Some(ADD_FAILED))
      ensures old(uiState.site).Some? && 1 <= monthNumber <= 12 ==>
        var db := old(store.Snapshot());
        var site := old(uiState.site.value);
        var name := GetMonthName(monthNumber, year);
        var o := MonthDao.InsertMonth(db, NewMonth(site.id, name, year, monthNumber, now));
        && (MonthRepository.IsMonthNameExists(db, site.id, name) ==>
              store.Snapshot() == db && uiState == old(uiState).(errorMessage := Some(MONTH_TAKEN)))
        && (!MonthRepository.IsMonthNameExists(db, site.id, name) && o.Failed? ==>
              store.Snapshot() == db && uiState == old(uiState).(errorMessage := Some(ADD_FAILED)))
        && (!MonthRepository.IsMonthNameExists(db, site.id, name) && o.Done? ==>
              store.Snapshot() == o.value.db && uiState == AfterEmission(old(uiState), observedSiteId, store.Snapshot()))
      ensures MonthsWellNamed(old(store.Snapshot())) ==> MonthsWellNamed(store.Snapshot())
    {
      if uiState.site.None? {
        return;
      }
      var site := uiState.site.value;
      if !(1 <= monthNumber <= 12) {
        // months[monthNumber - 1] throws; the catch sets the add error
        uiState := uiState.(errorMessage := Some(ADD_FAILED));
        return;
      }
      var monthName := GetMonthName(monthNumber, year);
      if MonthRepository.IsMonthNameExists(store.Snapshot(), site.id, monthName) {
        uiState := uiState.(errorMessage := Some(MONTH_TAKEN));
        return;
      }
      InsertKeepsWellNamed(store.Snapshot(), NewMonth(site.id, monthName, year, monthNumber, now));
      var r := store.InsertMonth(NewMonth(site.id, monthName, year, monthNumber, now));
      if r.Failed? {
        uiState := uiState.(errorMessage := Some(ADD_FAILED));
      } else {
        Emit();
      }
    }

    /** updateMonth: with a site loaded, refuses a name another month of the
        site has; otherwise stores the month with the new name, year and
        number (id, site and creation time kept) and the collector re-emits.
        A number outside 1..12 is reported like a failed update. */
    method UpdateMonth(month: Month, newMonthNumber: int, newYear: int)
      requires store.Valid()
      modifies this, store
      ensures store.Valid()
      ensures observedSiteId == old(observedSiteId)
      ensures old(uiState.site).None? ==> store.Snapshot() == old(store.Snapshot()) && uiState == old(uiState)
      ensures old(uiState.site).Some? && !(1 <= newMonthNumber <= 12) ==>
        store.Snapshot() == old(store.Snapshot()) && uiState == old(uiState).(errorMessage := Some(UPDATE_FAILED))
      ensures old(uiState.site).Some? && 1 <= newMonthNumber <= 12 ==>
        var db := old(store.Snapshot());
        var site := old(uiState.site.value);
        var name := GetMonthName(newMonthNumber, newYear);
        var changed := month.(name := name, year := newYear, monthNumber := newMonthNumber);
        var o := MonthDao.UpdateMonth(db, changed);
        && (MonthRepository.IsMonthNameExistsForUpdate(db, site.id, name, month.id) ==>
              store.Snapshot() == db && uiState == old(uiState).(errorMessage := Some(MONTH_TAKEN)))
        && (!MonthRepository.IsMonthNameExistsForUpdate(db, site.id, name, month.id) && o.Failed? ==>
              store.Snapshot() == db && uiState == old(uiState).(errorMessage := Some(UPDATE_FAILED)))
        && (!MonthRepository.IsMonthNameExistsForUpdate(db, site.id, name, month.id) && o.Done? ==>
              store.Snapshot() == o.value && uiState == AfterEmission(old(uiState), observedSiteId, store.Snapshot()))
      ensures MonthsWellNamed(old(store.Snapshot())) ==> MonthsWellNamed(store.Snapshot())
    {
      if uiState.site.None? {
        return;
      }
      var site := uiState.site.value;
      if !(1 <= newMonthNumber <= 12) {
        // months[newMonthNumber - 1] throws; the catch sets the update error
        uiState := uiState.(errorMessage := Some(UPDATE_FAILED));
        return;
      }
      var newMonthName := GetMonthName(newMonthNumber, newYear);
      if MonthRepository.IsMonthNameExistsForUpdate(store.Snapshot(), site.id, newMonthName, month.id) {
        uiState := uiState.(errorMessage := Some(MONTH_TAKEN));
        return;
      }
      var changed := month.(name := newMonthName, year := newYear, monthNumber := newMonthNumber);
      UpdateKeepsWellNamed(store.Snapshot(), changed);
      var r := store.UpdateMonth(changed);
      if r.Failed? {
        uiState := uiState.(errorMessage := Some(UPDATE_FAILED));
      } else {
        Emit();
      }
    }

    /** deleteMonth: removes the month and its payments; the collector re-emits. */
    method DeleteMonth(monthId: nat)
      requires store.Valid()
      modifies this, store
      ensures store.Valid()
      ensures observedSiteId == old(observedSiteId)
      ensures store.Snapshot() == MonthDao.DeleteMonth(old(store.Snapshot()), monthId)
      ensures uiState == AfterEmission(old(uiState), observedSiteId, store.Snapshot())
      ensures MonthsWellNamed(old(store.Snapshot())) ==> MonthsWellNamed(store.Snapshot())
    {
      ghost var before := store.Snapshot();
      store.DeleteMonth(monthId);
      if MonthsWellNamed(before) {
        RemovedMonthsKeepWellNamed(before, store.Snapshot());
      }
      Emit();
    }

    method ClearError()
      modifies this
      ensures uiState == old(uiState).(errorMessage := None)
      ensures observedSiteId == old(observedSiteId)
    {
      uiState := uiState.(errorMessage := None);
    }
  }
}
