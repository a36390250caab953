/** Kotlin's nullable result (`T?`). */
module Options {
  datatype Option<T> = None | Some(value: T)
}

/** One table of the store: its rows by id and its autoincrement counter. */
module Tables {
  import opened Options

  datatype RawTable<T> = RawTable(rows: map<nat, T>, next: nat)

  /** Row ids start at 1 and stay below the counter, which only grows. */
  type Table<T> = t: RawTable<T> | 0 < t.next && forall k :: k in t.rows ==> 0 < k < t.next
    witness RawTable(map[], 1)

  function EmptyTable<T>(): (t: Table<T>)
    ensures t.rows == map[]
  {
    RawTable(map[], 1)
  }

  /** The id an insert uses for a record that carries `requested`:
      0 asks for a fresh one, anything else is used as given. */
  function AssignedId<T>(t: Table<T>, requested: nat): (id: nat)
    ensures id > 0
    ensures requested == 0 ==> id !in t.rows
    ensures requested != 0 ==> id == requested
  {
    if requested == 0 then t.next else requested
  }

  /** Stores `row` under `id`, raising the counter past `id` when needed. */
  function Put<T>(t: Table<T>, id: nat, row: T): (r: Table<T>)
    requires id > 0
    ensures r.rows == t.rows[id := row]
    ensures r.next >= t.next
  {
    RawTable(t.rows[id := row], if id < t.next then t.next else id + 1)
  }

  /** Deletes every row for which `drop` holds; the counter is not reset. */
  function DeleteWhere<T>(t: Table<T>, drop: T -> bool): (r: Table<T>)
    ensures forall k :: k in r.rows <==> k in t.rows && !drop(t.rows[k])
    ensures Shrunk(r, t)
  {
    RawTable(map k | k in t.rows && !drop(t.rows[k]) :: t.rows[k], t.next)
  }

  /** `r` keeps some of the rows of `t`, unchanged, and the same counter. */
  ghost predicate Shrunk<T>(r: Table<T>, t: Table<T>) {
    r.next == t.next && forall k :: k in r.rows ==> k in t.rows && r.rows[k] == t.rows[k]
  }

  /** The rows with ids in [lo, hi) for which `keep` holds, in id order. */
  function SelectFrom<T(!new)>(t: Table<T>, keep: T -> bool, lo: nat, hi: nat): (r: seq<T>)
    decreases hi - lo
    ensures forall x :: x in r <==> exists k :: lo <= k < hi && k in t.rows && t.rows[k] == x && keep(x)
  {
    if lo >= hi then []
    else
      var rest := SelectFrom(t, keep, lo + 1, hi);
      if lo in t.rows && keep(t.rows[lo]) then [t.rows[lo]] + rest else rest
  }

  /** The ids in [lo, hi) of the rows for which `keep` holds. */
  ghost function KeysBetween<T>(t: Table<T>, keep: T -> bool, lo: nat, hi: nat): set<nat> {
    set k | lo <= k < hi && k in t.rows && keep(t.rows[k])
  }

  /** The matching ids of [lo, hi) are those of [lo + 1, hi), with `lo` when it matches. */
  lemma KeysBetweenStep<T>(t: Table<T>, keep: T -> bool, lo: nat, hi: nat)
    requires lo < hi
    ensures lo in t.rows && keep(t.rows[lo]) ==>
      KeysBetween(t, keep, lo, hi) == KeysBetween(t, keep, lo + 1, hi) + {lo}
    ensures !(lo in t.rows && keep(t.rows[lo])) ==>
      KeysBetween(t, keep, lo, hi) == KeysBetween(t, keep, lo + 1, hi)
    ensures lo !in KeysBetween(t, keep, lo + 1, hi)
  {
  }

  /** The walk over [lo, hi) yields one row per matching id. */
  lemma {:induction false} SelectFromLength<T(!new)>(t: Table<T>, keep: T -> bool, lo: nat, hi: nat)
    decreases hi - lo
    ensures |SelectFrom(t, keep, lo, hi)| == |KeysBetween(t, keep, lo, hi)|
  {
    if lo >= hi {
      assert KeysBetween(t, keep, lo, hi) == {};
    } else {
      SelectFromLength(t, keep, lo + 1, hi);
      KeysBetweenStep(t, keep, lo, hi);
    }
  }

  /** `SELECT * ... WHERE keep` without ORDER BY, in row-id order. */
  function Where<T(==,!new)>(t: Table<T>, keep: T -> bool): (r: seq<T>)
    ensures forall x :: x in r <==> x in t.rows.Values && keep(x)
    ensures |r| == CountWhere(t, keep)
  {
    SelectFromLength(t, keep, 0, t.next);
    assert KeysBetween(t, keep, 0, t.next) == set k | k in t.rows && keep(t.rows[k]);
    SelectFrom(t, keep, 0, t.next)
  }

  /** `SELECT * ... WHERE keep LIMIT 1`: the first matching row in row-id order. */
  function FirstWhere<T(==,!new)>(t: Table<T>, keep: T -> bool): (r: Option<T>)
    ensures r.Some? ==> r.value in t.rows.Values && keep(r.value)
    ensures r.None? <==> forall x :: x in t.rows.Values ==> !keep(x)
  {
    var all := Where(t, keep);
    if all == [] then None else Some(all[0])
  }

  /** The ids of the rows for which `keep` holds. */
  ghost function KeysWhere<T>(t: Table<T>, keep: T -> bool): set<nat> {
    set k | k in t.rows && keep(t.rows[k])
  }

  /** `SELECT COUNT(*) ... WHERE keep`. */
  function CountWhere<T(==,!new)>(t: Table<T>, keep: T -> bool): (n: nat)
    ensures n == |KeysWhere(t, keep)|
    ensures n > 0 <==> exists x :: x in t.rows.Values && keep(x)
  {
    var ids := set k | k in t.rows && keep(t.rows[k]);
    assert ids == KeysWhere(t, keep);
    assert forall x :: x in t.rows.Values && keep(x) ==> exists k :: k in ids && t.rows[k] == x;
    |ids|
  }

  /** An "excluding one id" count is the plain count, or one less. */
  lemma CountExcludingBounds<T(!new)>(t: Table<T>, keep: T -> bool, keepOthers: T -> bool, excluded: nat)
    requires forall x :: keepOthers(x) ==> keep(x)
    requires forall k :: k in t.rows && keep(t.rows[k]) && !keepOthers(t.rows[k]) ==> k == excluded
    ensures CountWhere(t, keepOthers) <= CountWhere(t, keep) <= CountWhere(t, keepOthers) + 1
  {
    var all := set k | k in t.rows && keep(t.rows[k]);
    var others := set k | k in t.rows && keepOthers(t.rows[k]);
    assert all == others + (all - others);
    if excluded in all - others {
      assert all - others == {excluded};
    } else {
      assert all - others == {};
    }
  }

  /** A set whose every element is `k` has at most one element. */
  lemma AtMostOne(s: set<nat>, k: nat)
    requires forall x :: x in s ==> x == k
    ensures |s| <= 1
  {
    if k in s {
      assert s == {k};
    } else {
      assert s == {};
    }
  }

  /** A subset is no larger than the set. */
  lemma SubsetNoLarger<T>(a: set<T>, b: set<T>)
    requires a <= b
    ensures |a| <= |b|
  {
    assert b == a + (b - a);
  }

  /** Finds the first element of a list that satisfies `p` (Kotlin's `find`). */
  function Find<T>(s: seq<T>, p: T -> bool): (r: Option<T>)
    ensures r.Some? ==> exists i :: 0 <= i < |s| && s[i] == r.value && p(s[i]) && forall j :: 0 <= j < i ==> !p(s[j])
    ensures r.None? <==> forall i :: 0 <= i < |s| ==> !p(s[i])
  {
    if s == [] then None
    else if p(s[0]) then Some(s[0])
    else
      var r := Find(s[1..], p);
      assert r.Some? ==> exists i :: 0 <= i < |s[1..]| && s[1..][i] == r.value && p(s[1..][i]) && forall j :: 0 <= j < i ==> !p(s[1..][j]);
      if r.Some? then
        ghost var i :| 0 <= i < |s[1..]| && s[1..][i] == r.value && p(s[1..][i]) && forall j :: 0 <= j < i ==> !p(s[1..][j]);
        assert s[i + 1] == r.value && forall j :: 0 <= j < i + 1 ==> !p(s[j]) by {
          forall j | 0 <= j < i + 1 ensures !p(s[j]) {
            if j > 0 { assert s[j] == s[1..][j - 1]; }
          }
        }
        r
      else
        assert forall i :: 1 <= i < |s| ==> s[i] == s[1..][i - 1];
        r
  }
}
