/** The lookups the screens' load chains make with `find` over a DAO list. */
module ScreenLookups {
  import opened Entities
  import opened Options
  import opened Tables
  import opened Database
  import SiteDao
  import BlockDao

  function SiteNameIs(name: string): Site -> bool {
    (s: Site) => s.name == name
  }

  function BlockNameIs(name: string): Block -> bool {
    (b: Block) => b.name == name
  }

  /** `getAllSites().find { it.name == siteName }`: a site with that name,
      the newest one when several share it. */
  function SiteByName(db: Db, name: string): (r: Option<Site>)
    ensures r.Some? ==> r.value in db.sites.rows.Values && r.value.name == name
    ensures r.None? <==> forall s :: s in db.sites.rows.Values ==> s.name != name
    ensures r.Some? ==> forall s :: s in db.sites.rows.Values && s.name == name ==> s.createdAt <= r.value.createdAt
  {
    var all := SiteDao.AllSites(db);
    FirstSiteIsNewest(all, name);
    Find(all, SiteNameIs(name))
  }

  /** In a list ordered newest first, the first site with a name is the newest with it. */
  lemma FirstSiteIsNewest(all: seq<Site>, name: string)
    requires forall i, j :: 0 <= i < j < |all| ==> all[i].createdAt >= all[j].createdAt
    ensures var r := Find(all, SiteNameIs(name));
      r.Some? ==> forall s :: s in all && s.name == name ==> s.createdAt <= r.value.createdAt
    ensures Find(all, SiteNameIs(name)).None? <==> forall s :: s in all ==> s.name != name
  {
    var r := Find(all, SiteNameIs(name));
    if r.Some? {
      var i :| 0 <= i < |all| && all[i] == r.value && SiteNameIs(name)(all[i])
        && forall j :: 0 <= j < i ==> !SiteNameIs(name)(all[j]);
      forall s | s in all && s.name == name ensures s.createdAt <= r.value.createdAt {
        var j :| 0 <= j < |all| && all[j] == s;
        assert SiteNameIs(name)(all[j]);
      }
    } else {
      forall s | s in all ensures s.name != name {
        var j :| 0 <= j < |all| && all[j] == s;
        assert !SiteNameIs(name)(all[j]);
      }
    }
  }

  /** `getBlocksBySiteId(site.id).find { it.name == selectedBlock }`: a block
      of the site with that name, the oldest one when several share it. */
  function BlockOfSiteByName(db: Db, siteId: nat, name: string): (r: Option<Block>)
    ensures r.Some? ==> r.value in db.blocks.rows.Values && r.value.siteId == siteId && r.value.name == name
    ensures r.None? <==> forall b :: b in db.blocks.rows.Values && b.siteId == siteId ==> b.name != name
    ensures r.Some? ==> forall b :: b in db.blocks.rows.Values && b.siteId == siteId && b.name == name ==>
      r.value.createdAt <= b.createdAt
  {
    var all := BlockDao.BlocksBySite(db, siteId);
    FirstBlockIsOldest(all, name);
    Find(all, BlockNameIs(name))
  }

  /** In a list ordered oldest first, the first block with a name is the oldest with it. */
  lemma FirstBlockIsOldest(all: seq<Block>, name: string)
    requires forall i, j :: 0 <= i < j < |all| ==> all[i].createdAt <= all[j].createdAt
    ensures var r := Find(all, BlockNameIs(name));
      r.Some? ==> forall b :: b in all && b.name == name ==> r.value.createdAt <= b.createdAt
    ensures Find(all, BlockNameIs(name)).None? <==> forall b :: b in all ==> b.name != name
  {
    var r := Find(all, BlockNameIs(name));
    if r.Some? {
      var i :| 0 <= i < |all| && all[i] == r.value && BlockNameIs(name)(all[i])
        && forall j :: 0 <= j < i ==> !BlockNameIs(name)(all[j]);
      forall b | b in all && b.name == name ensures r.value.createdAt <= b.createdAt {
        var j :| 0 <= j < |all| && all[j] == b;
        assert BlockNameIs(name)(all[j]);
      }
    } else {
      forall b | b in all ensures b.name != name {
        var j :| 0 <= j < |all| && all[j] == b;
        assert !BlockNameIs(name)(all[j]);
      }
    }
  }
}
