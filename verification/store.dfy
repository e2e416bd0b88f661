/** The document store behind the handlers: one table per collection,
    keyed by id. Ids come from a counter, so the order of ids is the order
    of creation; `sort({createdAt: -1})` is descending id order and the
    unsorted "natural" order is ascending id order. */
module Store {
  import opened Common
  import opened Paging

  /** A stored document together with its id. */
  datatype Doc<R> = Doc(id: Id, record: R)

  /** Every id in `rows` was handed out before `bound`. */
  predicate Below<R>(rows: map<Id, R>, bound: nat) {
    forall id :: id in rows ==> id < bound
  }

  /** The ids below `bound` whose rows satisfy `keep`, newest first:
      what `find(filter).sort({createdAt: -1})` returns. */
  function NewestFirst<R>(rows: map<Id, R>, bound: nat, keep: R -> bool): (ids: seq<Id>)
    ensures forall i :: 0 <= i < |ids| ==> ids[i] in rows && ids[i] < bound && keep(rows[ids[i]])
    ensures forall id :: id in rows && id < bound && keep(rows[id]) ==> id in ids
    ensures forall i, j :: 0 <= i < j < |ids| ==> ids[i] > ids[j]
  {
    if bound == 0 then []
    else
      var rest := NewestFirst(rows, bound - 1, keep);
      if bound - 1 in rows && keep(rows[bound - 1]) then [bound - 1] + rest else rest
  }

  /** The ids below `bound` whose rows satisfy `keep`, oldest first:
      what an unsorted `find(filter)` returns. */
  function OldestFirst<R>(rows: map<Id, R>, bound: nat, keep: R -> bool): (ids: seq<Id>)
    ensures forall i :: 0 <= i < |ids| ==> ids[i] in rows && ids[i] < bound && keep(rows[ids[i]])
    ensures forall id :: id in rows && id < bound && keep(rows[id]) ==> id in ids
    ensures forall i, j :: 0 <= i < j < |ids| ==> ids[i] < ids[j]
  {
    if bound == 0 then []
    else
      var rest := OldestFirst(rows, bound - 1, keep);
      if bound - 1 in rows && keep(rows[bound - 1]) then rest + [bound - 1] else rest
  }

  /** The ids whose rows satisfy `keep`. */
  function Matching<R>(rows: map<Id, R>, keep: R -> bool): set<Id> {
    set id | id in rows && keep(rows[id])
  }

  /** `countDocuments(filter)`. */
  function CountWhere<R>(rows: map<Id, R>, keep: R -> bool): nat {
    |Matching(rows, keep)|
  }

  /** The set of ids a list holds. */
  function Elems(ids: seq<Id>): (s: set<Id>)
    ensures forall id :: id in s <==> id in ids
  {
    if ids == [] then {} else {ids[0]} + Elems(ids[1..])
  }

  /** A strictly descending list has as many entries as distinct values. */
  lemma {:induction false} DescendingCard(ids: seq<Id>)
    requires forall i, j :: 0 <= i < j < |ids| ==> ids[i] > ids[j]
    ensures |Elems(ids)| == |ids|
  {
    if ids != [] {
      DescendingCard(ids[1..]);
      assert ids[0] !in ids[1..];
    }
  }

  /** When `bound` lies above every id, the sorted listing holds every
      matching row once, so its length is what `countDocuments` reports. */
  lemma CountIsListingLength<R>(rows: map<Id, R>, bound: nat, keep: R -> bool)
    requires Below(rows, bound)
    ensures |NewestFirst(rows, bound, keep)| == CountWhere(rows, keep)
  {
    var ids := NewestFirst(rows, bound, keep);
    assert Elems(ids) == Matching(rows, keep);
    DescendingCard(ids);
  }

  /** The documents behind a list of ids, in the same order. */
  function Docs<R>(rows: map<Id, R>, ids: seq<Id>): (ds: seq<Doc<R>>)
    requires forall i :: 0 <= i < |ids| ==> ids[i] in rows
    ensures |ds| == |ids|
    ensures forall i :: 0 <= i < |ids| ==> ds[i] == Doc(ids[i], rows[ids[i]])
  {
    seq(|ids|, i requires 0 <= i < |ids| => Doc(ids[i], rows[ids[i]]))
  }

  /** `find(filter)` with no sort: every matching document, in natural
      order. */
  function FindAll<R>(rows: map<Id, R>, bound: nat, keep: R -> bool): (ds: seq<Doc<R>>)
    requires Below(rows, bound)
    ensures forall i :: 0 <= i < |ds| ==> ds[i].id in rows && ds[i].record == rows[ds[i].id] && keep(ds[i].record)
    ensures forall id :: id in rows && keep(rows[id]) ==> exists i :: 0 <= i < |ds| && ds[i].id == id
    ensures forall i, j :: 0 <= i < j < |ds| ==> ds[i].id < ds[j].id
    ensures ds == [] <==> Matching(rows, keep) == {}
  {
    var ids := OldestFirst(rows, bound, keep);
    var ds := Docs(rows, ids);
    assert forall id :: id in ids ==> exists i :: 0 <= i < |ds| && ds[i].id == id;
    assert ids != [] ==> ids[0] in Matching(rows, keep);
    ds
  }

  /** `find(filter).sort({createdAt: -1}).skip(skip).limit(limit)`: one
      page of the matching documents, newest first. */
  function FindPage<R>(rows: map<Id, R>, bound: nat, keep: R -> bool, q: PageQuery): (ds: seq<Doc<R>>)
    ensures ds == PageOf(Docs(rows, NewestFirst(rows, bound, keep)), q)
    ensures |ds| <= q.limit
    ensures forall i :: 0 <= i < |ds| ==> ds[i].id in rows && ds[i].record == rows[ds[i].id] && keep(ds[i].record)
    ensures forall i, j :: 0 <= i < j < |ds| ==> ds[i].id > ds[j].id
  {
    var ids := NewestFirst(rows, bound, keep);
    var all := Docs(rows, ids);
    var ds := PageOf(all, q);
    assert forall i :: 0 <= i < |ds| ==> ds[i] == all[Skip(q) + i];
    ds
  }

  /** `findById`: the document, or 404 when the id is unknown. */
  function FindById<R>(rows: map<Id, R>, id: Id): (r: Result<R>)
    ensures r.Ok? <==> id in rows
    ensures r.Ok? ==> r.value == rows[id]
    ensures r.Err? ==> r.error == NotFound
  {
    if id in rows then Ok(rows[id]) else Err(NotFound)
  }

  /** The check the update and delete handlers make before writing: 404
      when the id is unknown, whoever asks; then 403 unless the caller owns
      the document or is an Admin. `None` lets the write go ahead. */
  function OwnedAccess<R>(rows: map<Id, R>, id: Id, caller: Caller, ownerOf: R -> Id): (e: Option<Error>)
    ensures id !in rows ==> e == Some(NotFound)
    ensures e == Some(Forbidden) <==> id in rows && !OwnerOrAdmin(caller, ownerOf(rows[id]))
    ensures e == None <==> id in rows && OwnerOrAdmin(caller, ownerOf(rows[id]))
  {
    if id !in rows then Some(NotFound)
    else if !OwnerOrAdmin(caller, ownerOf(rows[id])) then Some(Forbidden)
    else None
  }

  /** One collection. `nextId` is the next id to hand out. */
  class Table<R> {
    var rows: map<Id, R>
    var nextId: Id

    ghost predicate Valid()
      reads this
    {
      Below(rows, nextId)
    }

    constructor ()
      ensures Valid() && rows == map[]
    {
      rows := map[];
      nextId := 0;
    }

    /** Saves a new document under a fresh id, newer than every other. */
    method Insert(r: R) returns (id: Id)
      requires Valid()
      modifies this
      ensures Valid()
      ensures id !in old(rows) && rows == old(rows)[id := r]
      ensures forall other :: other in old(rows) ==> other < id
    {
      id := nextId;
      rows := rows[id := r];
      nextId := nextId + 1;
    }

    /** `findByIdAndUpdate` on an existing document. */
    method Replace(id: Id, r: R)
      requires Valid() && id in rows
      modifies this`rows
      ensures Valid()
      ensures rows == old(rows)[id := r]
    {
      rows := rows[id := r];
    }

    /** `findByIdAndDelete`. */
    method Delete(id: Id)
      requires Valid()
      modifies this`rows
      ensures Valid()
      ensures rows == old(rows) - {id}
    {
      rows := rows - {id};
    }
  }
}
