/** The counter-and-map table behind every guest handle. */
module HandleTables {
  import opened Results
  import opened Sequences

  type Handle = nat

  /** emplace: a handle that is already taken keeps its record. */
  function Emplaced<R>(records: map<Handle, R>, handle: Handle, record: R): map<Handle, R> {
    if handle in records then records else records[handle := record]
  }

  /** A value of the 64-bit counter. */
  type Counter64 = n: nat | n < U64

  function Bump(next: Handle): Counter64 {
    (next + 1) % U64
  }

  class HandleTable<R> {
    var next: Counter64
    var records: map<Handle, R>

    constructor ()
      ensures next == 1 && records == map[]
    {
      next, records := 1, map[];
    }

    method Insert(record: R) returns (handle: Handle)
      modifies this
      ensures handle == old(next) && next == Bump(old(next))
      ensures records == Emplaced(old(records), handle, record)
    {
      handle := next;
      next := Bump(next);
      if handle !in records {
        records := records[handle := record];
      }
    }

    method Find(handle: Handle) returns (r: Option<R>)
      ensures r.Some? <==> handle in records
      ensures r.Some? ==> r.value == records[handle]
    {
      if handle in records {
        r := Some(records[handle]);
      } else {
        r := None;
      }
    }

    method Erase(handle: Handle)
      modifies this
      ensures next == old(next)
      ensures records == old(records) - {handle}
    {
      records := records - {handle};
    }

    /** Erases while iterating, in whatever order the hash table yields. */
    method EraseIf(doomed: R -> bool)
      modifies this
      ensures next == old(next)
      ensures records == map h | h in old(records) && !doomed(old(records)[h]) :: old(records)[h]
    {
      var todo := records.Keys;
      while todo != {}
        invariant next == old(next)
        invariant todo <= old(records).Keys
        invariant records == map h | h in old(records) && (h in todo || !doomed(old(records)[h])) :: old(records)[h]
        decreases todo
      {
        var h :| h in todo;
        todo := todo - {h};
        if doomed(records[h]) {
          records := records - {h};
        }
      }
    }

    /** The order in which ForEach visits the table: any order, each handle once. */
    method VisitOrder() returns (order: seq<Handle>)
      ensures NoDup(order)
      ensures forall h :: h in order <==> h in records
    {
      order := [];
      var todo := records.Keys;
      while todo != {}
        invariant todo <= records.Keys
        invariant NoDup(order)
        invariant forall h :: h in order <==> h in records && h !in todo
        decreases todo
      {
        var h :| h in todo;
        todo := todo - {h};
        order := order + [h];
      }
    }
  }
}
