/** The task store behind the three `/api/tasks` handlers of server/server.js
    (lines 48-90). The JSON file that `readDB`/`writeDB` load and rewrite (lines 28-34)
    is the field `tasks` of a TaskStore object; writing the file and broadcasting
    `tasks_updated` to the socket clients are recorded, in order, in its `effects` log. */
module Store {
  import opened Wrappers
  import opened Records

  /** Something a request does besides answering: rewriting the collection file, or
      broadcasting an event to every connected socket client. */
  datatype Effect = Persisted | Broadcast(event: string)

  /** The one event the service broadcasts. */
  const TasksUpdated: string := "tasks_updated"

  /** Why a status update fails: no task has the id (answered with 404), or the stored
      document has no `tasks` collection at all, where `db.tasks.find` throws. */
  datatype PatchError = NotFound | MissingCollection

  /** The error body of the 404 answer. */
  const NotFoundMessage: string := "Not found"

  /** The collection after a successful status update, and the position of the task
      that was changed. */
  datatype Patched = Patched(tasks: seq<Task>, index: nat)

  /** What `GET /api/tasks` answers for a stored collection (`db.tasks || []`). */
  function Listing(db: Option<seq<Task>>): (r: seq<Task>)
    ensures db.Some? ==> r == db.value
    ensures db.None? ==> r == []
  {
    match db
    case Some(ts) => ts
    case None => []
  }

  /** The collection after a create stored `t`: the collection is started if it was
      absent, and `t` is put in front of the tasks already there. */
  function Created(db: Option<seq<Task>>, t: Task): (r: seq<Task>)
    ensures |r| == |Listing(db)| + 1
    ensures r[0] == t && r[1..] == Listing(db)
  {
    [t] + Listing(db)
  }

  /** The position of the first task whose id is `id`, if any (`Array.prototype.find`). */
  function FindIndex(ts: seq<Task>, id: int): (r: Option<nat>)
    ensures r.Some? ==> r.value < |ts| && ts[r.value].id == id
    ensures r.Some? ==> forall j :: 0 <= j < r.value ==> ts[j].id != id
    ensures r.None? <==> forall j :: 0 <= j < |ts| ==> ts[j].id != id
  {
    if ts == [] then None
    else if ts[0].id == id then Some(0)
    else match FindIndex(ts[1..], id)
      case None => None
      case Some(k) => Some(k + 1)
  }

  /** `PATCH /api/tasks/:id` on a stored collection: the first task with the id gets the
      caller's status, whatever it is; every other field and every other task stays
      as it was. */
  function Patch(db: Option<seq<Task>>, id: int, status: string): (r: Result<Patched, PatchError>)
    ensures r == Failure(MissingCollection) <==> db.None?
    ensures db.Some? ==> (r == Failure(NotFound) <==> forall j :: 0 <= j < |db.value| ==> db.value[j].id != id)
    ensures r.Success? ==> db.Some? && |r.value.tasks| == |db.value|
    ensures r.Success? ==> r.value.index < |db.value| && db.value[r.value.index].id == id
    ensures r.Success? ==> forall j :: 0 <= j < r.value.index ==> db.value[j].id != id
    ensures r.Success? ==> r.value.tasks[r.value.index] == db.value[r.value.index].(status := status)
    ensures r.Success? ==> forall j :: 0 <= j < |db.value| && j != r.value.index ==> r.value.tasks[j] == db.value[j]
  {
    match db
    case None => Failure(MissingCollection)
    case Some(ts) =>
      match FindIndex(ts, id)
      case None => Failure(NotFound)
      case Some(i) => Success(Patched(ts[i := ts[i].(status := status)], i))
  }

  /** The HTTP status of a status-update answer: 200 with the task, 404 with
      `{ error: "Not found" }`, or 500 when the handler throws. */
  function PatchStatusCode(r: Result<Task, PatchError>): (code: int)
    ensures code == 200 <==> r.Success?
    ensures code == 404 <==> r == Failure(NotFound)
    ensures code == 500 <==> r == Failure(MissingCollection)
  {
    match r
    case Success(_) => 200
    case Failure(NotFound) => 404
    case Failure(MissingCollection) => 500
  }

  /** A log in which every file write is immediately followed by one `tasks_updated`
      broadcast, and nothing else happens. */
  ghost predicate Paired(e: seq<Effect>)
    decreases |e|
  {
    e == [] || (|e| >= 2 && e[0] == Persisted && e[1] == Broadcast(TasksUpdated) && Paired(e[2..]))
  }

  /** One more write-then-broadcast keeps a log paired. */
  lemma {:induction false} PairedExtend(e: seq<Effect>)
    requires Paired(e)
    ensures Paired(e + [Persisted, Broadcast(TasksUpdated)])
  {
    if e != [] {
      assert (e + [Persisted, Broadcast(TasksUpdated)])[2..] == e[2..] + [Persisted, Broadcast(TasksUpdated)];
      PairedExtend(e[2..]);
    }
  }

  /** In a paired log every broadcast comes right after a file write: clients are only
      told of a change once it has been written. */
  lemma {:induction false} BroadcastFollowsWrite(e: seq<Effect>, i: nat)
    requires Paired(e) && i < |e| && e[i].Broadcast?
    ensures 0 < i && e[i - 1] == Persisted
  {
    if i >= 2 {
      BroadcastFollowsWrite(e[2..], i - 2);
    }
  }

  /** The stored collection together with the log of what the handlers did. */
  class TaskStore {
    var tasks: Option<seq<Task>>
    var effects: seq<Effect>

    ghost predicate Valid()
      reads this
    {
      Paired(effects)
    }

    /** A store whose file holds `db`, before any request. */
    constructor (db: Option<seq<Task>>)
      ensures Valid()
      ensures tasks == db && effects == []
    {
      tasks := db;
      effects := [];
    }

    /** `GET /api/tasks`: reads the collection and changes nothing. */
    method List() returns (r: seq<Task>)
      ensures r == Listing(tasks)
    {
      var db := tasks;
      r := if db.Some? then db.value else [];
    }

    /** `POST /api/tasks`: builds the record, puts it in front, rewrites the file, then
        broadcasts once and answers with the record. */
    method Create(form: Form, files: Option<seq<Upload>>, now: int, createdAt: string) returns (t: Task)
      requires Valid()
      modifies this
      ensures Valid()
      ensures t == NewTask(form, files, now, createdAt)
      ensures tasks == Some(Created(old(tasks), t))
      ensures effects == old(effects) + [Persisted, Broadcast(TasksUpdated)]
    {
      var list := if tasks.Some? then tasks.value else [];
      t := NewTask(form, files, now, createdAt);
      list := [t] + list;
      tasks := Some(list);
      effects := effects + [Persisted];
      effects := effects + [Broadcast(TasksUpdated)];
      assert effects == old(effects) + [Persisted, Broadcast(TasksUpdated)];
      PairedExtend(old(effects));
    }

    /** `PATCH /api/tasks/:id`: sets the status of the first task with the id, rewrites
        the file, broadcasts once and answers with the changed task; when the update
        fails nothing is written and nothing is broadcast. */
    method UpdateStatus(id: int, status: string) returns (r: Result<Task, PatchError>)
      requires Valid()
      modifies this
      ensures Valid()
      ensures match Patch(old(tasks), id, status)
        case Failure(e) =>
          r == Failure(e) && tasks == old(tasks) && effects == old(effects)
        case Success(p) =>
          && r == Success(p.tasks[p.index])
          && tasks == Some(p.tasks)
          && effects == old(effects) + [Persisted, Broadcast(TasksUpdated)]
    {
      if tasks.None? {
        r := Failure(MissingCollection);
        return;
      }
      var list := tasks.value;
      var found := FindIndex(list, id);
      if found.None? {
        r := Failure(NotFound);
        return;
      }
      var i := found.value;
      list := list[i := list[i].(status := status)];
      tasks := Some(list);
      effects := effects + [Persisted];
      effects := effects + [Broadcast(TasksUpdated)];
      assert effects == old(effects) + [Persisted, Broadcast(TasksUpdated)];
      PairedExtend(old(effects));
      r := Success(list[i]);
    }
  }
}
