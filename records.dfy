/** The records the task service stores and returns, and how a create request
    is turned into a new task record (server/server.js, lines 57-70). */
module Records {
  import opened Wrappers

  /** Metadata of one uploaded file as the multipart middleware reports it:
      the name it was stored under, the client's file name and the media type. */
  datatype Upload = Upload(filename: string, originalname: string, mimetype: string)

  /** One entry of a task's `files` list. */
  datatype Attachment = Attachment(filename: string, original: string, mediaType: string)

  /** The text fields of a create request; None is a field the request did not carry. */
  datatype Form = Form(
    ticket: Option<string>,
    title: Option<string>,
    description: Option<string>,
    deadline: Option<string>)

  /** A stored task. A `deadline` of None is the JSON value null. */
  datatype Task = Task(
    id: int,
    ticket: string,
    title: string,
    description: string,
    status: string,
    deadline: Option<string>,
    createdAt: string,
    files: seq<Attachment>)

  /** The status every new task starts in. */
  const InitialStatus: string := "new"

  /** `field || ""` on a text field. The only falsy string is "", which is kept as it
      is, so a field that was sent is copied and a missing one becomes "". */
  function TextOrEmpty(v: Option<string>): (r: string)
    ensures v == Some(r) || (v.None? && r == "")
  {
    match v
    case Some(s) => s
    case None => ""
  }

  /** `deadline || null`: a missing deadline and an empty one are both stored as null. */
  function DeadlineOrNull(v: Option<string>): (r: Option<string>)
    ensures r.Some? <==> v.Some? && v.value != ""
    ensures r.Some? ==> r == v
  {
    if v.Some? && v.value != "" then v else None
  }

  /** The attachment entry of one upload. */
  function ToAttachment(u: Upload): Attachment
  {
    Attachment(u.filename, u.originalname, u.mimetype)
  }

  /** The `files` list of a new task: one entry per upload, in upload order. */
  function Attachments(uploads: seq<Upload>): (r: seq<Attachment>)
    ensures |r| == |uploads|
    ensures forall i :: 0 <= i < |uploads| ==>
      && r[i].filename == uploads[i].filename
      && r[i].original == uploads[i].originalname
      && r[i].mediaType == uploads[i].mimetype
  {
    if uploads == [] then [] else [ToAttachment(uploads[0])] + Attachments(uploads[1..])
  }

  /** The record a create request builds. `now` is the millisecond clock reading used as
      the id, `createdAt` the ISO rendering of the creation instant, and `files` the
      uploads the middleware reports (None when it reports none at all). */
  function NewTask(form: Form, files: Option<seq<Upload>>, now: int, createdAt: string): (t: Task)
    ensures t.id == now && t.createdAt == createdAt
    ensures t.status == InitialStatus
    ensures form.ticket == Some(t.ticket) || (form.ticket.None? && t.ticket == "")
    ensures form.title == Some(t.title) || (form.title.None? && t.title == "")
    ensures form.description == Some(t.description) || (form.description.None? && t.description == "")
    ensures t.deadline.Some? <==> form.deadline.Some? && form.deadline.value != ""
    ensures t.deadline.Some? ==> t.deadline == form.deadline
    ensures files.None? ==> t.files == []
    ensures files.Some? ==> |t.files| == |files.value|
    ensures files.Some? ==> forall i :: 0 <= i < |files.value| ==>
      && t.files[i].filename == files.value[i].filename
      && t.files[i].original == files.value[i].originalname
      && t.files[i].mediaType == files.value[i].mimetype
  {
    Task(
      id := now,
      ticket := TextOrEmpty(form.ticket),
      title := TextOrEmpty(form.title),
      description := TextOrEmpty(form.description),
      status := InitialStatus,
      deadline := DeadlineOrNull(form.deadline),
      createdAt := createdAt,
      files := Attachments(if files.Some? then files.value else []))
  }
}
