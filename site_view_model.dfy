/** The site selection screen's view model (SiteViewModel): the site list
    and the add, rename and delete actions with their duplicate-name check. */
module SiteSecimEkran {
  import opened Entities
  import opened Options
  import opened Database
  import opened AppDatabase
  import SiteDao
  import SiteRepository

  datatype SiteUiState = SiteUiState(sites: seq<Site>, isLoading: bool, errorMessage: Option<string>)

  const NAME_TAKEN: string := "Bu site adı zaten mevcut"

  class SiteViewModel {
    const store: Store
    var uiState: SiteUiState

    /** Creation runs loadSites. */
    constructor (store: Store)
      ensures this.store == store
      ensures uiState == SiteUiState(SiteDao.AllSites(store.Snapshot()), false, None)
    {
      this.store := store;
      uiState := SiteUiState([], false, None);
      new;
      LoadSites();
    }

    /** loadSites: the list becomes getAllSites(), loading ends, no error. */
    method LoadSites()
      modifies this
      ensures uiState == old(uiState).(sites := SiteDao.AllSites(store.Snapshot()), isLoading := false, errorMessage := None)
    {
      uiState := uiState.(isLoading := true);
      var sites := SiteDao.AllSites(store.Snapshot());
      uiState := uiState.(sites := sites, isLoading := false, errorMessage := None);
    }

    /** addSite: refuses a name some site already has; otherwise inserts one
        site with that name and reloads the list. */
    method AddSite(siteName: string, now: int)
      requires store.Valid()
      modifies this, store
      ensures store.Valid()
      ensures SiteRepository.IsSiteNameExists(old(store.Snapshot()), siteName) ==>
        store.Snapshot() == old(store.Snapshot()) && uiState == old(uiState).(errorMessage := Some(NAME_TAKEN))
      ensures !SiteRepository.IsSiteNameExists(old(store.Snapshot()), siteName) ==>
        && SiteDao.InsertSite(old(store.Snapshot()), NewSite(siteName, now)).Done?
        && store.Snapshot() == SiteDao.InsertSite(old(store.Snapshot()), NewSite(siteName, now)).value.db
        && SiteDao.SiteCountByName(store.Snapshot(), siteName) == 1
        && uiState == old(uiState).(sites := SiteDao.AllSites(store.Snapshot()), isLoading := false, errorMessage := None)
    {
      if SiteRepository.IsSiteNameExists(store.Snapshot(), siteName) {
        uiState := uiState.(errorMessage := Some(NAME_TAKEN));
        return;
      }
      SiteDao.InsertSiteCount(store.Snapshot(), NewSite(siteName, now));
      var id := store.InsertSite(NewSite(siteName, now));
      LoadSites();
    }

    /** updateSite: refuses a name another site has (keeping its own name is
        allowed); otherwise stores the site under its id with the new name
        and reloads the list. */
    method UpdateSite(site: Site, newName: string)
      requires store.Valid()
      modifies this, store
      ensures store.Valid()
      ensures SiteRepository.IsSiteNameExistsForUpdate(old(store.Snapshot()), newName, site.id) ==>
        store.Snapshot() == old(store.Snapshot()) && uiState == old(uiState).(errorMessage := Some(NAME_TAKEN))
      ensures !SiteRepository.IsSiteNameExistsForUpdate(old(store.Snapshot()), newName, site.id) ==>
        && store.Snapshot() == SiteDao.UpdateSite(old(store.Snapshot()), site.(name := newName))
        && uiState == old(uiState).(sites := SiteDao.AllSites(store.Snapshot()), isLoading := false, errorMessage := None)
    {
      if SiteRepository.IsSiteNameExistsForUpdate(store.Snapshot(), newName, site.id) {
        uiState := uiState.(errorMessage := Some(NAME_TAKEN));
        return;
      }
      store.UpdateSite(site.(name := newName));
      LoadSites();
    }

    /** deleteSite: removes the site with everything below it and reloads the list. */
    method DeleteSite(siteId: nat)
      requires store.Valid()
      modifies this, store
      ensures store.Valid()
      ensures store.Snapshot() == SiteDao.DeleteSite(old(store.Snapshot()), siteId)
      ensures uiState == old(uiState).(sites := SiteDao.AllSites(store.Snapshot()), isLoading := false, errorMessage := None)
    {
      store.DeleteSite(siteId);
      LoadSites();
    }

    method ClearError()
      modifies this
      ensures uiState == old(uiState).(errorMessage := None)
    {
      uiState := uiState.(errorMessage := None);
    }
  }

  /** A rename of a stored site writes the caller's copy with the new name over
      that row and changes nothing else; when the copy is the stored row (as it
      is for a site picked from the list), only the name of that row changes. */
  lemma RenameChangesOnlyName(db: Db, site: Site, newName: string)
    requires site.id in db.sites.rows
    ensures var after := SiteDao.UpdateSite(db, site.(name := newName));
      && after.sites.rows == db.sites.rows[site.id := site.(name := newName)]
      && (db.sites.rows[site.id] == site ==>
            after.sites.rows == db.sites.rows[site.id := db.sites.rows[site.id].(name := newName)])
      && after.months == db.months && after.blocks == db.blocks && after.people == db.people && after.payments == db.payments
  {
  }
}
