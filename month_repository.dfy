/** MonthRepository: the name checks the callers make before a write. The
    writes themselves pass straight through to MonthDao. */
module MonthRepository {
  import opened Entities
  import opened Database
  import opened MonthDao

  /** isMonthNameExists: some month of the site has exactly this name. */
  function IsMonthNameExists(db: Db, siteId: nat, name: string): (r: bool)
    ensures r <==> exists m :: m in db.months.rows.Values && m.siteId == siteId && m.name == name
  {
    MonthCountBySiteAndName(db, siteId, name) > 0
  }

  /** isMonthNameExistsForUpdate: some month of the site other than `excludeId` has this name. */
  function IsMonthNameExistsForUpdate(db: Db, siteId: nat, name: string, excludeId: nat): (r: bool)
    ensures r <==> exists m :: m in db.months.rows.Values && m.siteId == siteId && m.name == name && m.id != excludeId
  {
    MonthCountBySiteAndNameExcludingId(db, siteId, name, excludeId) > 0
  }

  /** The for-update check implies the plain one and ignores the month being renamed. */
  lemma MonthForUpdateCheck(db: Db, siteId: nat, name: string, excludeId: nat)
    ensures IsMonthNameExistsForUpdate(db, siteId, name, excludeId) ==> IsMonthNameExists(db, siteId, name)
    ensures !IsMonthNameExistsForUpdate(db, siteId, name, excludeId) <==>
      forall m :: m in db.months.rows.Values && m.siteId == siteId && m.name == name ==> m.id == excludeId
  {
  }

  /** The store itself accepts a second month of an existing name in a site. */
  lemma DuplicateMonthAccepted(db: Db, month: Month)
    requires db.Valid()
    requires month.id == UNASSIGNED && month.siteId in db.sites.rows
    requires IsMonthNameExists(db, month.siteId, month.name)
    ensures InsertMonth(db, month).Done?
    ensures MonthCountBySiteAndName(InsertMonth(db, month).value.db, month.siteId, month.name) >= 2
  {
    InsertMonthThenFind(db, month);
  }
}
