/**
 * The keyed customer store the service works against (find-by-id, find-all,
 * save, delete-by-id). Ids are handed out from a counter starting at 1.
 */
module CustomerRepository {
  import opened Wrappers
  import opened Customers

  /** A call the service made to one of the store's writing operations. */
  datatype Write = Saved(customer: Customer) | Deleted(id: int)

  /** Every stored customer carries the key it is stored under. */
  ghost predicate KeysMatchIds(rows: map<int, Customer>) {
    forall k | k in rows :: rows[k].id == Some(k)
  }

  /** The stored customers with ids in [1, hi), in ascending id order. */
  function InIdOrder(rows: map<int, Customer>, hi: int): seq<Customer>
    decreases hi
  {
    if hi <= 1 then []
    else InIdOrder(rows, hi - 1) + (if hi - 1 in rows then [rows[hi - 1]] else [])
  }

  /**
   * r lists each stored customer with an id in [1, hi) exactly once: every
   * entry is stored under its own id, every such stored customer is listed,
   * and the ids strictly increase.
   */
  ghost predicate ListsInIdOrder(rows: map<int, Customer>, r: seq<Customer>, hi: int) {
    && (forall i | 0 <= i < |r| ::
          r[i].id.Some? && 1 <= r[i].id.value < hi && r[i].id.value in rows && rows[r[i].id.value] == r[i])
    && (forall k | k in rows && 1 <= k < hi :: rows[k] in r)
    && (forall i, j | 0 <= i < j < |r| :: r[i].id.value < r[j].id.value)
  }

  lemma {:induction false} InIdOrderLists(rows: map<int, Customer>, hi: int)
    requires KeysMatchIds(rows)
    ensures ListsInIdOrder(rows, InIdOrder(rows, hi), hi)
    decreases hi
  {
    if hi > 1 {
      InIdOrderLists(rows, hi - 1);
      var prefix := InIdOrder(rows, hi - 1);
      var r := InIdOrder(rows, hi);
      assert forall i | 0 <= i < |prefix| :: r[i] == prefix[i];
      forall i | 0 <= i < |r|
        ensures r[i].id.Some? && 1 <= r[i].id.value < hi && r[i].id.value in rows && rows[r[i].id.value] == r[i]
      {
        if i == |prefix| {
          assert r[i] == rows[hi - 1] && rows[hi - 1].id == Some(hi - 1);
        }
      }
      forall k | k in rows && 1 <= k < hi
        ensures rows[k] in r
      {
        if k < hi - 1 {
          var i :| 0 <= i < |prefix| && prefix[i] == rows[k];
          assert r[i] == rows[k];
        } else {
          assert r[|r| - 1] == rows[k];
        }
      }
    }
  }

  class Repository {
    var rows: map<int, Customer>
    var nextId: int
    /** The save and delete-by-id calls received, oldest first. */
    ghost var writes: seq<Write>

    ghost predicate Valid()
      reads this
    {
      && 1 <= nextId
      && KeysMatchIds(rows)
      && forall k | k in rows :: 1 <= k < nextId
    }

    constructor ()
      ensures Valid() && rows == map[] && nextId == 1 && writes == []
    {
      rows := map[];
      nextId := 1;
      writes := [];
    }

    method FindById(id: int) returns (r: Option<Customer>)
      ensures r.Some? <==> id in rows
      ensures r.Some? ==> r.value == rows[id]
    {
      r := if id in rows then Some(rows[id]) else None;
    }

    /**
     * findAll, in ascending id order: each stored customer exactly once, and
     * nothing else.
     */
    method FindAll() returns (r: seq<Customer>)
      requires Valid()
      ensures r == InIdOrder(rows, nextId) && ListsInIdOrder(rows, r, nextId)
      ensures forall k | k in rows :: rows[k] in r
      ensures r == [] <==> rows == map[]
    {
      r := InIdOrder(rows, nextId);
      InIdOrderLists(rows, nextId);
      if r == [] {
        assert forall k :: k !in rows.Keys;
        assert rows == map[];
      } else {
        assert r[0].id.value in rows;
      }
    }

    /**
     * save: with a fault the store stores nothing and reports the fault's
     * text; otherwise a customer whose id is stored replaces that row, and
     * any other customer is inserted under a fresh id.
     */
    method Save(c: Customer, fault: Option<string>) returns (r: Result<Customer, string>)
      requires Valid()
      modifies this
      ensures Valid()
      ensures writes == old(writes) + [Saved(c)]
      ensures fault.Some? ==> r == Failure(fault.value) && rows == old(rows) && nextId == old(nextId)
      ensures fault.None? && c.id.Some? && c.id.value in old(rows) ==>
        r == Success(c) && rows == old(rows)[c.id.value := c] && nextId == old(nextId)
      ensures fault.None? && !(c.id.Some? && c.id.value in old(rows)) ==>
        r == Success(c.(id := Some(old(nextId)))) && rows == old(rows)[old(nextId) := r.value]
        && nextId == old(nextId) + 1
    {
      writes := writes + [Saved(c)];
      if fault.Some? {
        return Failure(fault.value);
      }
      if c.id.Some? && c.id.value in rows {
        rows := rows[c.id.value := c];
        r := Success(c);
      } else {
        var stored := c.(id := Some(nextId));
        rows := rows[nextId := stored];
        nextId := nextId + 1;
        r := Success(stored);
      }
    }

    /** deleteById: the row with that id is gone and nothing else changes. */
    method DeleteById(id: int)
      requires Valid()
      modifies this
      ensures Valid()
      ensures writes == old(writes) + [Deleted(id)]
      ensures rows == old(rows) - {id} && nextId == old(nextId)
    {
      writes := writes + [Deleted(id)];
      rows := rows - {id};
    }
  }
}
