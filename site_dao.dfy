/** The queries and writes of the `sites` table (SiteDao). */
module SiteDao {
  import opened Entities
  import opened Tables
  import opened Ordering
  import opened Database

  /** ORDER BY created_at DESC. */
  function NewestFirst(s: Site): SortKey {
    SortKey(-s.createdAt, 0, s.id)
  }

  /** getAllSites / observeAllSites: every site once, newest first. */
  function AllSites(db: Db): (r: seq<Site>)
    ensures forall s :: s in r <==> s in db.sites.rows.Values
    ensures |r| == |db.sites.rows|
    ensures forall i, j :: 0 <= i < j < |r| ==> r[i].createdAt >= r[j].createdAt
  {
    var all := Where(db.sites, (s: Site) => true);
    assert KeysWhere(db.sites, (s: Site) => true) == db.sites.rows.Keys;
    SortByMembers(all, NewestFirst);
    SortBy(all, NewestFirst)
  }

  /** The ids of the sites named `name`. */
  ghost function SitesNamed(db: Db, name: string): set<nat> {
    set k | k in db.sites.rows && db.sites.rows[k].name == name
  }

  /** getSiteCountByName: the number of sites whose name is exactly `name`. */
  function SiteCountByName(db: Db, name: string): (n: nat)
    ensures n == |SitesNamed(db, name)|
    ensures n > 0 <==> exists s :: s in db.sites.rows.Values && s.name == name
  {
    assert KeysWhere(db.sites, (s: Site) => s.name == name) == SitesNamed(db, name);
    CountWhere(db.sites, (s: Site) => s.name == name)
  }

  /** getSiteCountByNameExcludingId: the same count, ignoring the row `excludeId`. */
  function SiteCountByNameExcludingId(db: Db, name: string, excludeId: nat): (n: nat)
    ensures n == |set k | k in db.sites.rows && db.sites.rows[k].name == name && db.sites.rows[k].id != excludeId|
    ensures n > 0 <==> exists s :: s in db.sites.rows.Values && s.name == name && s.id != excludeId
  {
    assert KeysWhere(db.sites, (s: Site) => s.name == name && s.id != excludeId)
      == set k | k in db.sites.rows && db.sites.rows[k].name == name && db.sites.rows[k].id != excludeId;
    CountWhere(db.sites, (s: Site) => s.name == name && s.id != excludeId)
  }

  /** The excluding count is the plain count or one less. */
  lemma SiteCountExcludingBounds(db: Db, name: string, excludeId: nat)
    requires db.Valid()
    ensures SiteCountByNameExcludingId(db, name, excludeId) <= SiteCountByName(db, name)
    ensures SiteCountByName(db, name) <= SiteCountByNameExcludingId(db, name, excludeId) + 1
  {
    CountExcludingBounds(db.sites, (s: Site) => s.name == name,
      (s: Site) => s.name == name && s.id != excludeId, excludeId);
  }

  /** insertSite (@Insert, ABORT on conflict): stores the row under a fresh id,
      or under the id it carries, which must then be unused. */
  function InsertSite(db: Db, site: Site): (r: Outcome<Inserted>)
    ensures r.Failed? <==> site.id != UNASSIGNED && site.id in db.sites.rows
    ensures r.Failed? ==> r.error == UniqueViolation
    ensures r.Done? ==>
      && r.value.id !in db.sites.rows
      && (site.id != UNASSIGNED ==> r.value.id == site.id)
      && r.value.db.sites.rows == db.sites.rows[r.value.id := site.(id := r.value.id)]
      && r.value.db == db.(sites := r.value.db.sites)
  {
    var id := AssignedId(db.sites, site.id);
    if id in db.sites.rows then Failed(UniqueViolation)
    else Done(Inserted(db.(sites := Put(db.sites, id, site.(id := id))), id))
  }

  /** updateSite (@Update): replaces the row with the same id; no row, no change. */
  function UpdateSite(db: Db, site: Site): (r: Db)
    ensures site.id in db.sites.rows ==> r.sites.rows == db.sites.rows[site.id := site]
    ensures site.id !in db.sites.rows ==> r == db
    ensures r == db.(sites := r.sites)
  {
    if site.id in db.sites.rows then db.(sites := Put(db.sites, site.id, site)) else db
  }

  /** deleteSite: removes the site and, by cascade, its months, blocks, people and payments. */
  function DeleteSite(db: Db, id: nat): (r: Db)
    ensures forall k :: k in r.sites.rows ==> r.sites.rows[k].id != id
    ensures forall k :: k in db.sites.rows && db.sites.rows[k].id != id ==> k in r.sites.rows && r.sites.rows[k] == db.sites.rows[k]
  {
    DeleteSites(db, {id})
  }

  lemma InsertSiteKeepsValid(db: Db, site: Site)
    requires db.Valid()
    ensures InsertSite(db, site).Done? ==> InsertSite(db, site).value.db.Valid()
  {
  }

  /** An insert adds exactly one site of that name: no name check is made. */
  lemma InsertSiteCount(db: Db, site: Site)
    requires InsertSite(db, site).Done?
    ensures SiteCountByName(InsertSite(db, site).value.db, site.name) == SiteCountByName(db, site.name) + 1
    ensures var ins := InsertSite(db, site).value; site.(id := ins.id) in AllSites(ins.db)
  {
    var ins := InsertSite(db, site).value;
    InsertedSiteNamed(db, ins.db, ins.id, site.(id := ins.id));
    assert ins.db.sites.rows[ins.id] in ins.db.sites.rows.Values;
  }

  /** Adding a row under a fresh id adds that id, and only it, to the ids of its name. */
  lemma InsertedSiteNamed(db: Db, after: Db, id: nat, site: Site)
    requires id !in db.sites.rows
    requires after.sites.rows == db.sites.rows[id := site]
    ensures SitesNamed(after, site.name) == SitesNamed(db, site.name) + {id}
    ensures |SitesNamed(after, site.name)| == |SitesNamed(db, site.name)| + 1
  {
    var before := SitesNamed(db, site.name);
    assert SitesNamed(after, site.name) == before + {id};
    assert id !in before;
  }

  lemma UpdateSiteKeepsValid(db: Db, site: Site)
    requires db.Valid()
    ensures UpdateSite(db, site).Valid()
  {
  }

  /** The site and everything below it are gone; the other sites' months and blocks stay. */
  lemma DeleteSiteCascade(db: Db, id: nat)
    requires db.Valid()
    ensures DeleteSite(db, id).Valid()
    ensures forall m :: m in DeleteSite(db, id).months.rows.Values ==> m.siteId != id
    ensures forall b :: b in DeleteSite(db, id).blocks.rows.Values ==> b.siteId != id
    ensures forall k :: k in db.months.rows && db.months.rows[k].siteId != id ==> k in DeleteSite(db, id).months.rows
    ensures forall k :: k in db.blocks.rows && db.blocks.rows[k].siteId != id ==> k in DeleteSite(db, id).blocks.rows
  {
    DeleteSitesKeepsValid(db, {id});
  }

  /** The people of the other sites' blocks stay, and so do the payments of
      those people for the other sites' months. */
  lemma DeleteSiteKeepsOthers(db: Db, id: nat)
    requires db.Valid()
    ensures forall k :: k in db.people.rows && db.blocks.rows[db.people.rows[k].blockId].siteId != id ==>
      k in DeleteSite(db, id).people.rows
    ensures forall k :: (k in db.payments.rows
      && db.months.rows[db.payments.rows[k].monthId].siteId != id
      && db.blocks.rows[db.people.rows[db.payments.rows[k].personId].blockId].siteId != id) ==>
      k in DeleteSite(db, id).payments.rows
  {
    var r := DeleteSite(db, id);
    forall k | k in db.payments.rows
      && db.months.rows[db.payments.rows[k].monthId].siteId != id
      && db.blocks.rows[db.people.rows[db.payments.rows[k].personId].blockId].siteId != id
      ensures k in r.payments.rows
    {
      var pay := db.payments.rows[k];
      assert db.people.rows[pay.personId].id == pay.personId;
      assert db.people.rows[pay.personId].blockId !in BlocksOfSites(db, {id});
    }
  }
}
