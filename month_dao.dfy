/** The queries and writes of the `months` table (MonthDao). */
module MonthDao {
  import opened Entities
  import opened Options
  import opened Tables
  import opened Ordering
  import opened Database

  /** ORDER BY year DESC, month_number DESC. */
  function LatestFirst(m: Month): SortKey {
    SortKey(-m.year, -m.monthNumber, m.id)
  }

  /** getMonthsBySiteId / observeMonthsBySiteId: the months of one site, latest period first. */
  function MonthsBySite(db: Db, siteId: nat): (r: seq<Month>)
    ensures forall m :: m in r <==> m in db.months.rows.Values && m.siteId == siteId
    ensures |r| == |set k | k in db.months.rows && db.months.rows[k].siteId == siteId|
    ensures forall i, j :: 0 <= i < j < |r| ==>
      r[i].year > r[j].year || (r[i].year == r[j].year && r[i].monthNumber >= r[j].monthNumber)
  {
    var all := Where(db.months, (m: Month) => m.siteId == siteId);
    assert |all| == |set k | k in db.months.rows && db.months.rows[k].siteId == siteId| by {
      assert KeysWhere(db.months, (m: Month) => m.siteId == siteId)
        == set k | k in db.months.rows && db.months.rows[k].siteId == siteId;
    }
    SortByMembers(all, LatestFirst);
    var r := SortBy(all, LatestFirst);
    LatestFirstOrder(r);
    r
  }

  /** A list sorted on the key is in descending (year, month number) order. */
  lemma LatestFirstOrder(r: seq<Month>)
    requires SortedBy(r, LatestFirst)
    ensures forall i, j :: 0 <= i < j < |r| ==>
      r[i].year > r[j].year || (r[i].year == r[j].year && r[i].monthNumber >= r[j].monthNumber)
  {
    forall i, j | 0 <= i < j < |r|
      ensures r[i].year > r[j].year || (r[i].year == r[j].year && r[i].monthNumber >= r[j].monthNumber)
    {
      assert KeyLe(LatestFirst(r[i]), LatestFirst(r[j]));
    }
  }

  /** getMonthById: the month stored under that id, if any. */
  function MonthById(db: Db, monthId: nat): (r: Option<Month>)
    ensures r.Some? ==> r.value in db.months.rows.Values && r.value.id == monthId
    ensures db.IdsMatch() ==> (r.Some? <==> monthId in db.months.rows)
    ensures db.IdsMatch() && r.Some? ==> r.value == db.months.rows[monthId]
  {
    assert monthId in db.months.rows ==> db.months.rows[monthId] in db.months.rows.Values;
    FirstWhere(db.months, (m: Month) => m.id == monthId)
  }

  /** getMonthBySiteAndName: some month of the site with that name, if any. */
  function MonthBySiteAndName(db: Db, siteId: nat, name: string): (r: Option<Month>)
    ensures r.Some? ==> r.value in db.months.rows.Values && r.value.siteId == siteId && r.value.name == name
    ensures r.None? <==> forall m :: m in db.months.rows.Values ==> !(m.siteId == siteId && m.name == name)
  {
    FirstWhere(db.months, (m: Month) => m.siteId == siteId && m.name == name)
  }

  /** The ids of the months of `siteId` named `name`. */
  ghost function MonthsNamed(db: Db, siteId: nat, name: string): set<nat> {
    set k | k in db.months.rows && db.months.rows[k].siteId == siteId && db.months.rows[k].name == name
  }

  /** getMonthCountBySiteAndName: the count is scoped to the site. */
  function MonthCountBySiteAndName(db: Db, siteId: nat, name: string): (n: nat)
    ensures n == |MonthsNamed(db, siteId, name)|
    ensures n > 0 <==> exists m :: m in db.months.rows.Values && m.siteId == siteId && m.name == name
  {
    assert KeysWhere(db.months, (m: Month) => m.siteId == siteId && m.name == name) == MonthsNamed(db, siteId, name);
    CountWhere(db.months, (m: Month) => m.siteId == siteId && m.name == name)
  }

  /** getMonthCountBySiteAndNameExcludingId: the same count, ignoring the row `excludeId`. */
  function MonthCountBySiteAndNameExcludingId(db: Db, siteId: nat, name: string, excludeId: nat): (n: nat)
    ensures n == |MonthsNamed(db, siteId, name) - {excludeId}| <== db.IdsMatch()
    ensures n > 0 <==> exists m :: m in db.months.rows.Values && m.siteId == siteId && m.name == name && m.id != excludeId
  {
    assert db.IdsMatch() ==>
      KeysWhere(db.months, (m: Month) => m.siteId == siteId && m.name == name && m.id != excludeId)
      == MonthsNamed(db, siteId, name) - {excludeId};
    CountWhere(db.months, (m: Month) => m.siteId == siteId && m.name == name && m.id != excludeId)
  }

  /** The excluding count is the plain count or one less. */
  lemma MonthCountExcludingBounds(db: Db, siteId: nat, name: string, excludeId: nat)
    requires db.Valid()
    ensures MonthCountBySiteAndNameExcludingId(db, siteId, name, excludeId) <= MonthCountBySiteAndName(db, siteId, name)
    ensures MonthCountBySiteAndName(db, siteId, name) <= MonthCountBySiteAndNameExcludingId(db, siteId, name, excludeId) + 1
  {
    CountExcludingBounds(db.months, (m: Month) => m.siteId == siteId && m.name == name,
      (m: Month) => m.siteId == siteId && m.name == name && m.id != excludeId, excludeId);
  }

  /** insertMonth: stores the row under a fresh id (or the unused id it carries);
      the site it names must exist. */
  function InsertMonth(db: Db, month: Month): (r: Outcome<Inserted>)
    ensures r == Failed(UniqueViolation) <==> month.id != UNASSIGNED && month.id in db.months.rows
    ensures r == Failed(ForeignKeyViolation) <==>
      (month.id == UNASSIGNED || month.id !in db.months.rows) && month.siteId !in db.sites.rows
    ensures r.Done? ==>
      && r.value.id !in db.months.rows
      && (month.id != UNASSIGNED ==> r.value.id == month.id)
      && r.value.db.months.rows == db.months.rows[r.value.id := month.(id := r.value.id)]
      && r.value.db == db.(months := r.value.db.months)
  {
    var id := AssignedId(db.months, month.id);
    if id in db.months.rows then Failed(UniqueViolation)
    else if month.siteId !in db.sites.rows then Failed(ForeignKeyViolation)
    else Done(Inserted(db.(months := Put(db.months, id, month.(id := id))), id))
  }

  /** updateMonth: replaces the row with the same id, if there is one; the
      site it names must exist. */
  function UpdateMonth(db: Db, month: Month): (r: Outcome<Db>)
    ensures month.id !in db.months.rows ==> r == Done(db)
    ensures r.Failed? <==> month.id in db.months.rows && month.siteId !in db.sites.rows
    ensures r.Failed? ==> r.error == ForeignKeyViolation
    ensures r.Done? && month.id in db.months.rows ==>
      r.value.months.rows == db.months.rows[month.id := month] && r.value == db.(months := r.value.months)
  {
    if month.id !in db.months.rows then Done(db)
    else if month.siteId !in db.sites.rows then Failed(ForeignKeyViolation)
    else Done(db.(months := Put(db.months, month.id, month)))
  }

  /** deleteMonth: removes the month and, by cascade, its payments. */
  function DeleteMonth(db: Db, id: nat): (r: Db)
    ensures forall k :: k in r.months.rows ==> r.months.rows[k].id != id
    ensures forall k :: k in db.months.rows && db.months.rows[k].id != id ==> k in r.months.rows && r.months.rows[k] == db.months.rows[k]
  {
    DeleteMonths(db, {id})
  }

  lemma InsertMonthKeepsValid(db: Db, month: Month)
    requires db.Valid()
    ensures InsertMonth(db, month).Done? ==> InsertMonth(db, month).value.db.Valid()
  {
  }

  /** After an insert, the month is found under the returned id and listed
      among the site's months; the insert adds one month of that name to the site. */
  lemma InsertMonthThenFind(db: Db, month: Month)
    requires db.Valid()
    requires InsertMonth(db, month).Done?
    ensures var ins := InsertMonth(db, month).value;
      MonthById(ins.db, ins.id) == Some(month.(id := ins.id))
    ensures var ins := InsertMonth(db, month).value;
      month.(id := ins.id) in MonthsBySite(ins.db, month.siteId)
    ensures var ins := InsertMonth(db, month).value;
      MonthCountBySiteAndName(ins.db, month.siteId, month.name) == MonthCountBySiteAndName(db, month.siteId, month.name) + 1
  {
    InsertMonthKeepsValid(db, month);
    var ins := InsertMonth(db, month).value;
    assert ins.db.months.rows[ins.id] in ins.db.months.rows.Values;
    InsertedMonthNamed(db, ins.db, ins.id, month.(id := ins.id));
  }

  /** Adding a row under a fresh id adds that id, and only it, to the ids of its site and name. */
  lemma InsertedMonthNamed(db: Db, after: Db, id: nat, month: Month)
    requires id !in db.months.rows
    requires after.months.rows == db.months.rows[id := month]
    ensures MonthsNamed(after, month.siteId, month.name) == MonthsNamed(db, month.siteId, month.name) + {id}
    ensures |MonthsNamed(after, month.siteId, month.name)| == |MonthsNamed(db, month.siteId, month.name)| + 1
  {
    var before := MonthsNamed(db, month.siteId, month.name);
    assert MonthsNamed(after, month.siteId, month.name) == before + {id};
    assert id !in before;
  }

  lemma UpdateMonthKeepsValid(db: Db, month: Month)
    requires db.Valid()
    ensures UpdateMonth(db, month).Done? ==> UpdateMonth(db, month).value.Valid()
  {
  }

  /** Deleting a month removes its payments and nothing of the site's blocks or people. */
  lemma DeleteMonthCascade(db: Db, id: nat)
    requires db.Valid()
    ensures DeleteMonth(db, id).Valid()
    ensures forall pay :: pay in DeleteMonth(db, id).payments.rows.Values ==> pay.monthId != id
    ensures forall k :: k in db.payments.rows && db.payments.rows[k].monthId != id ==>
      k in DeleteMonth(db, id).payments.rows
    ensures DeleteMonth(db, id).sites == db.sites && DeleteMonth(db, id).blocks == db.blocks
    ensures DeleteMonth(db, id).people == db.people
  {
    DeleteMonthsKeepsValid(db, {id});
  }
}
