/** The status maps the selection screens build: a `forEach` over a list
    that sets `statusMap[item.id] = status` for every item. */
module StatusMaps {

  /** The ids of the items of a list. */
  function IdsOf<T>(items: seq<T>, id: T -> nat): set<nat> {
    set i | 0 <= i < |items| :: id(items[i])
  }

  /** The map the loop has filled once it has seen every item of `items`. */
  function StatusMap<T>(items: seq<T>, id: T -> nat, status: nat -> bool): map<nat, bool> {
    map k | k in IdsOf(items, id) :: status(k)
  }

  /** One step of the loop: the map for a longer prefix. */
  lemma StatusMapStep<T>(items: seq<T>, id: T -> nat, status: nat -> bool, i: nat)
    requires i < |items|
    ensures StatusMap(items[..i + 1], id, status) == StatusMap(items[..i], id, status)[id(items[i]) := status(id(items[i]))]
  {
    var before := items[..i];
    var after := items[..i + 1];
    assert IdsOf(after, id) == IdsOf(before, id) + {id(items[i])} by {
      forall k | k in IdsOf(after, id) ensures k in IdsOf(before, id) + {id(items[i])} {
        var j :| 0 <= j < |after| && id(after[j]) == k;
        if j < i {
          assert before[j] == after[j];
        }
      }
      forall k | k in IdsOf(before, id) ensures k in IdsOf(after, id) {
        var j :| 0 <= j < |before| && id(before[j]) == k;
        assert after[j] == before[j];
      }
      assert after[i] == items[i];
    }
  }

  /** The keys of a status map are the ids of the items, and each value is the status of its key. */
  lemma StatusMapKeys<T>(items: seq<T>, id: T -> nat, status: nat -> bool)
    ensures forall k :: k in StatusMap(items, id, status) <==> exists x :: x in items && id(x) == k
    ensures forall k :: k in StatusMap(items, id, status) ==> StatusMap(items, id, status)[k] == status(k)
  {
    forall k ensures k in StatusMap(items, id, status) <==> exists x :: x in items && id(x) == k {
      if exists x :: x in items && id(x) == k {
        var x :| x in items && id(x) == k;
        var i :| 0 <= i < |items| && items[i] == x;
        assert k in IdsOf(items, id);
      }
    }
  }

  /** The loop of observe...AndPayments: `statusMap[id(item)] = status(id(item))` for each item. */
  method BuildStatusMap<T>(items: seq<T>, id: T -> nat, status: nat -> bool) returns (statusMap: map<nat, bool>)
    ensures statusMap == StatusMap(items, id, status)
    ensures forall k :: k in statusMap <==> exists i :: 0 <= i < |items| && id(items[i]) == k
    ensures forall k :: k in statusMap ==> statusMap[k] == status(k)
  {
    statusMap := map[];
    var i := 0;
    assert IdsOf(items[..0], id) == {};
    while i < |items|
      invariant 0 <= i <= |items|
      invariant statusMap == StatusMap(items[..i], id, status)
    {
      StatusMapStep(items, id, status, i);
      statusMap := statusMap[id(items[i]) := status(id(items[i]))];
      i := i + 1;
    }
    assert items[..i] == items;
  }
}
