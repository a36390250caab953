/** SiteRepository: the name checks the callers make before a write. The
    writes themselves pass straight through to SiteDao. */
module SiteRepository {
  import opened Entities
  import opened Database
  import opened SiteDao

  /** isSiteNameExists: some site has exactly this name. */
  function IsSiteNameExists(db: Db, name: string): (r: bool)
    ensures r <==> exists s :: s in db.sites.rows.Values && s.name == name
  {
    SiteCountByName(db, name) > 0
  }

  /** isSiteNameExistsForUpdate: some site other than `excludeId` has this name. */
  function IsSiteNameExistsForUpdate(db: Db, name: string, excludeId: nat): (r: bool)
    ensures r <==> exists s :: s in db.sites.rows.Values && s.name == name && s.id != excludeId
  {
    SiteCountByNameExcludingId(db, name, excludeId) > 0
  }

  /** The for-update check implies the plain one; it fails exactly when every
      site of that name is the excluded one (so keeping one's own name passes). */
  lemma SiteForUpdateCheck(db: Db, name: string, excludeId: nat)
    ensures IsSiteNameExistsForUpdate(db, name, excludeId) ==> IsSiteNameExists(db, name)
    ensures !IsSiteNameExistsForUpdate(db, name, excludeId) <==>
      forall s :: s in db.sites.rows.Values && s.name == name ==> s.id == excludeId
  {
  }

  /** The store itself accepts a second site of an existing name. */
  lemma DuplicateSiteAccepted(db: Db, name: string, now: int)
    requires IsSiteNameExists(db, name)
    ensures InsertSite(db, NewSite(name, now)).Done?
    ensures SiteCountByName(InsertSite(db, NewSite(name, now)).value.db, name) >= 2
  {
    InsertSiteCount(db, NewSite(name, now));
  }
}
