/** What follows for sequences of requests from the contracts of the single
    handlers in module Store. */
module Histories {
  import opened Wrappers
  import opened Records
  import opened Store

  /** `s` back to front. */
  function Reversed(s: seq<Task>): (r: seq<Task>)
    ensures |r| == |s|
    ensures forall k :: 0 <= k < |s| ==> r[k] == s[|s| - 1 - k]
  {
    if s == [] then [] else Reversed(s[1..]) + [s[0]]
  }

  /** The listing after the tasks `ts` were created one after another, in that order,
      starting from the stored collection `db`. */
  function AfterCreates(db: Option<seq<Task>>, ts: seq<Task>): seq<Task>
    decreases |ts|
  {
    if ts == [] then Listing(db) else AfterCreates(Some(Created(db, ts[0])), ts[1..])
  }

  /** After N creates the listing holds the N new tasks, newest first, in front of the
      tasks that were there before, which keep their order. */
  lemma {:induction false} CreatesListNewestFirst(db: Option<seq<Task>>, ts: seq<Task>)
    ensures AfterCreates(db, ts) == Reversed(ts) + Listing(db)
    decreases |ts|
  {
    if ts != [] {
      var c := Some(Created(db, ts[0]));
      CreatesListNewestFirst(c, ts[1..]);
      calc {
        AfterCreates(db, ts);
        AfterCreates(c, ts[1..]);
        Reversed(ts[1..]) + ([ts[0]] + Listing(db));
        (Reversed(ts[1..]) + [ts[0]]) + Listing(db);
        Reversed(ts) + Listing(db);
      }
    }
  }

  /** After N creates the listing is N longer and starts with the task created last. */
  lemma CreatesCountAndNewest(db: Option<seq<Task>>, ts: seq<Task>)
    ensures |AfterCreates(db, ts)| == |ts| + |Listing(db)|
    ensures ts != [] ==> AfterCreates(db, ts)[0] == ts[|ts| - 1]
  {
    CreatesListNewestFirst(db, ts);
    if ts != [] {
      assert AfterCreates(db, ts)[0] == Reversed(ts)[0];
    }
  }

  /** The first task with an id depends only on the ids, position by position. */
  lemma {:induction false} FindIndexByIds(a: seq<Task>, b: seq<Task>, id: int)
    requires |a| == |b|
    requires forall j :: 0 <= j < |a| ==> a[j].id == b[j].id
    ensures FindIndex(a, id) == FindIndex(b, id)
  {
    if a != [] && a[0].id != id {
      FindIndexByIds(a[1..], b[1..], id);
    }
  }

  /** A status update never changes an id, so the same task is found afterwards. */
  lemma PatchKeepsLookup(db: Option<seq<Task>>, id: int, status: string, other: int)
    requires Patch(db, id, status).Success?
    ensures FindIndex(Patch(db, id, status).value.tasks, other) == FindIndex(db.value, other)
  {
    var p := Patch(db, id, status).value;
    FindIndexByIds(p.tasks, db.value, other);
  }

  /** Repeating a successful status update changes nothing more. */
  lemma PatchIdempotent(db: Option<seq<Task>>, id: int, status: string)
    requires Patch(db, id, status).Success?
    ensures Patch(Some(Patch(db, id, status).value.tasks), id, status) == Patch(db, id, status)
  {
    var p := Patch(db, id, status).value;
    PatchKeepsLookup(db, id, status, id);
    assert p.tasks[p.index := p.tasks[p.index].(status := status)] == p.tasks;
  }

  /** Of two status updates of the same id, the second one decides; no transition is
      refused, whatever the first one set. */
  lemma PatchLastWins(db: Option<seq<Task>>, id: int, first: string, second: string)
    requires Patch(db, id, first).Success?
    ensures Patch(Some(Patch(db, id, first).value.tasks), id, second) == Patch(db, id, second)
  {
    var p := Patch(db, id, first).value;
    PatchKeepsLookup(db, id, first, id);
    var q := Patch(db, id, second).value;
    assert p.tasks[p.index := p.tasks[p.index].(status := second)] == q.tasks;
  }

  /** When a new task shares its id with older ones, a status update of that id changes
      the new task, at the front, and leaves the older ones alone. */
  lemma PatchHitsNewestDuplicate(db: Option<seq<Task>>, t: Task, status: string)
    ensures Patch(Some(Created(db, t)), t.id, status)
         == Success(Patched(Created(db, t.(status := status)), 0))
  {
    var ts := Created(db, t);
    assert FindIndex(ts, t.id) == Some(0);
    assert ts[0 := t.(status := status)] == Created(db, t.(status := status));
  }

  /** A status update of an id that no task has fails with NotFound, however many tasks
      were created before (the collection exists once a create ran, or from the start). */
  lemma PatchUnknownAfterCreates(db: Option<seq<Task>>, ts: seq<Task>, id: int, status: string)
    requires forall j :: 0 <= j < |Listing(db)| ==> Listing(db)[j].id != id
    requires forall j :: 0 <= j < |ts| ==> ts[j].id != id
    requires ts != [] || db.Some?
    ensures Patch(Some(AfterCreates(db, ts)), id, status) == Failure(NotFound)
  {
    CreatesListNewestFirst(db, ts);
    var all := AfterCreates(db, ts);
    forall j | 0 <= j < |all| ensures all[j].id != id {
      if j < |ts| {
        assert all[j] == ts[|ts| - 1 - j];
      } else {
        assert all[j] == Listing(db)[j - |ts|];
      }
    }
  }
}
