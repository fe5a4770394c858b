/**
 * The optimistic-concurrency protocol of the storage engine, stated once as functions of
 * the store's state (internal/database/kv.go; internal/database/memory.go runs the same
 * protocol over a map). Each mutating operation reads the stored object, runs the match
 * check, stamps the caller's object with engine-owned fields and writes it back. Every
 * failure returns the zero response and writes nothing.
 */
module Protocol {
  import opened Wrappers
  import opened Objects
  import opened Tokens

  /**
   * What a key-value backend holds (the KeyValueStore interface of kv.go): the stored
   * objects, and the keys on which the backend's Read, Write or Delete fail with an I/O
   * error (a file that does not decode, a directory that cannot be written). The
   * in-memory backend never fails.
   */
  datatype Backend = Backend(
    entries: map<string, Object>,
    readFaults: map<string, string>,
    writeFaults: map<string, string>,
    deleteFaults: map<string, string>)

  function Faultless(entries: map<string, Object>): (b: Backend)
    ensures b.entries == entries
    ensures b.readFaults == b.writeFaults == b.deleteFaults == map[]
  {
    Backend(entries, map[], map[], map[])
  }

  /** The backend's own not-found error (files.go reports "No such file"). */
  const NoSuchFile := "No such file"

  /** Store contract: a Read of an absent key yields DoesNotExist. */
  function StoreRead(b: Backend, key: string): (r: Result<Object, Error>)
    ensures r.Success? <==> key !in b.readFaults && key in b.entries
    ensures r.Success? ==> r.value == b.entries[key]
    ensures key in b.readFaults ==> r == Failure(Io(b.readFaults[key]))
    ensures key !in b.readFaults && key !in b.entries ==> r.Failure? && r.error.DoesNotExist?
  {
    if key in b.readFaults then Failure(Io(b.readFaults[key]))
    else if key in b.entries then Success(b.entries[key])
    else Failure(DoesNotExist(NoSuchFile))
  }

  /** Store contract: a Write either stores the value under the key or fails and stores nothing. */
  function StoreWrite(b: Backend, key: string, value: Object): (r: Result<map<string, Object>, Error>)
    ensures r.Success? <==> key !in b.writeFaults
    ensures r.Success? ==> r.value == b.entries[key := value]
    ensures r.Failure? ==> r.error == Io(b.writeFaults[key])
  {
    if key in b.writeFaults then Failure(Io(b.writeFaults[key])) else Success(b.entries[key := value])
  }

  /** Store contract: a Delete of an absent key yields DoesNotExist. */
  function StoreDelete(b: Backend, key: string): (r: Result<map<string, Object>, Error>)
    ensures r.Success? <==> key !in b.deleteFaults && key in b.entries
    ensures r.Success? ==> r.value == b.entries - {key}
    ensures key !in b.deleteFaults && key !in b.entries ==> r.Failure? && r.error.DoesNotExist?
  {
    if key in b.deleteFaults then Failure(Io(b.deleteFaults[key]))
    else if key in b.entries then Success(b.entries - {key})
    else Failure(DoesNotExist(NoSuchFile))
  }

  /**
   * The values the random source hands to the next calls of RandomString, in call order.
   * A create of an absent name uses `first` for the id and `second` for the revision;
   * a replace or an update uses `first` for the new revision.
   */
  datatype Draws = Draws(first: uint32, second: uint32)

  /** The `(MetadataResponse, error)` pair of a mutating operation. */
  datatype Reply = Reply(meta: MetadataResponse, err: Option<Error>)

  /** The reply of an operation together with the store's entries after it. */
  datatype Step = Step(reply: Reply, entries: map<string, Object>)

  /** Which operation runs the match check: it fixes the wording of the messages. */
  datatype Operation = ReplaceOp | UpdateOp | DeleteOp

  function Verb(op: Operation): string {
    match op
    case ReplaceOp => "replace"
    case UpdateOp => "update"
    case DeleteOp => "delete"
  }

  /** "Object <name> exists" on a replace, "Object <name>" on an update or a delete. */
  function Subject(op: Operation, name: string): string {
    if op == ReplaceOp then "Object " + name + " exists and" else "Object " + name
  }

  function IdConflictMessage(op: Operation, name: string): string {
    Subject(op, name) + " does not have the expected id, cannot " + Verb(op)
  }

  function RevisionConflictMessage(op: Operation, name: string): string {
    Subject(op, name) + " does not have the expected revision, cannot " + Verb(op)
  }

  function RevisionWithoutIdMessage(op: Operation): string {
    "Cannot " + Verb(op) + " with a previous revision but no previous id"
  }

  function AlreadyExistsMessage(name: string): string {
    "Object " + name + " already exists, cannot create"
  }

  function CannotUpdateMessage(name: string): string {
    "Object " + name + " does not exist, cannot update"
  }

  function NotFoundMessage(name: string): string {
    "Object " + name + " does not exist"
  }

  /**
   * The documented contract of interface.go: a non-empty id or revision must match the
   * stored one. The code is stricter (see MatchCheck): a revision without an id is refused.
   */
  predicate DocMatches(id: string, revision: string, stored: ObjectMetadata) {
    (id == "" || id == stored.id) && (revision == "" || revision == stored.revision)
  }

  /**
   * The match check shared by replace, update and delete: the id is compared first, then
   * a revision supplied without an id is refused outright, then the revision is compared.
   */
  function MatchCheck(op: Operation, name: string, id: string, revision: string, stored: ObjectMetadata): (r: Option<Error>)
    ensures r.None? <==> DocMatches(id, revision, stored) && (revision != "" ==> id != "")
    ensures id != "" && id != stored.id ==> r == Some(Conflict(IdConflictMessage(op, name)))
    ensures id == "" && revision != "" ==> r == Some(Invalid(RevisionWithoutIdMessage(op)))
    ensures id != "" && id == stored.id && revision != "" && revision != stored.revision ==>
              r == Some(Conflict(RevisionConflictMessage(op, name)))
  {
    if id != "" && stored.id != id then
      Some(Conflict(IdConflictMessage(op, name)))
    else if revision != "" && id == "" then
      Some(Invalid(RevisionWithoutIdMessage(op)))
    else if revision != "" && stored.revision != revision then
      Some(Conflict(RevisionConflictMessage(op, name)))
    else
      None
  }

  /** The caller's object with the three engine-owned metadata fields overwritten. */
  function Stamp(o: Object, creationTime: Time, id: string, revision: string): (s: Object)
    ensures SameContent(s, o)
    ensures s.metadata.creationTime == creationTime && s.metadata.id == id && s.metadata.revision == revision
  {
    o.(metadata := o.metadata.(creationTime := creationTime, id := id, revision := revision))
  }

  /** Everything but the creation time, the id and the revision is the caller's. */
  predicate SameContent(a: Object, b: Object) {
    && a.kind == b.kind && a.version == b.version && a.spec == b.spec && a.status == b.status
    && a.metadata.name == b.metadata.name && a.metadata.labels == b.metadata.labels
  }

  /** A failed operation: the zero response, the error, and the entries as they were. */
  function Fail(b: Backend, e: Error): (r: Step)
    ensures r.reply == Reply(ZeroResponse, Some(e)) && r.entries == b.entries
  {
    Step(Reply(ZeroResponse, Some(e)), b.entries)
  }

  predicate Failed(b: Backend, r: Step) {
    r.reply.err.Some? && r.reply.meta == ZeroResponse && r.entries == b.entries
  }

  /**
   * A successful write of `o`: the store gains or replaces exactly the entry under o's
   * name and the response is o's id and revision.
   */
  predicate Wrote(b: Backend, r: Step, o: Object) {
    r.reply == Reply(ResponseOf(o), None) && r.entries == b.entries[o.metadata.name := o]
  }

  /** Writes the stamped object and answers with its id and revision. */
  function Commit(b: Backend, o: Object): (r: Step)
    ensures o.metadata.name !in b.writeFaults ==> Wrote(b, r, o)
    ensures o.metadata.name in b.writeFaults ==> r == Fail(b, Io(b.writeFaults[o.metadata.name]))
  {
    match StoreWrite(b, o.metadata.name, o)
    case Success(entries) => Step(Reply(ResponseOf(o), None), entries)
    case Failure(e) => Fail(b, e)
  }

  /**
   * The outcome of writing an object stamped with the given creation time, id and
   * revision under `name`: success with those values unless the backend's write fails.
   */
  predicate WriteOutcome(b: Backend, r: Step, name: string, creationTime: Time, id: string, revision: string) {
    if name in b.writeFaults then r == Fail(b, Io(b.writeFaults[name]))
    else
      && r.reply == Reply(MetadataResponse(id, revision), None)
      && name in r.entries
      && r.entries[name].metadata.creationTime == creationTime
      && r.entries[name].metadata.id == id
      && r.entries[name].metadata.revision == revision
  }

  predicate Present(b: Backend, name: string) {
    name !in b.readFaults && name in b.entries
  }

  predicate Absent(b: Backend, name: string) {
    name !in b.readFaults && name !in b.entries
  }

  /** `Create(object, replace)` (kv.go:35-90, memory.go:23-68). */
  function Create(b: Backend, obj: Object, replace: bool, now: Time, draws: Draws): (r: Step)
    // failures are uniform; successes write exactly the one entry
    ensures r.reply.err.Some? ==> Failed(b, r)
    ensures r.reply.err.None? ==> obj.metadata.name in r.entries && Wrote(b, r, r.entries[obj.metadata.name])
    ensures r.reply.err.None? ==> SameContent(r.entries[obj.metadata.name], obj)
    // a backend read error is returned unchanged
    ensures obj.metadata.name in b.readFaults ==> r == Fail(b, Io(b.readFaults[obj.metadata.name]))
    // an absent name: the caller's tokens are ignored and fresh ones are drawn
    ensures Absent(b, obj.metadata.name) ==>
              WriteOutcome(b, r, obj.metadata.name, now, RandomString(draws.first), RandomString(draws.second))
    // an existing name without replace is a conflict
    ensures Present(b, obj.metadata.name) && !replace ==>
              r == Fail(b, Conflict(AlreadyExistsMessage(obj.metadata.name)))
    // an existing name with replace: the match check decides; the lineage is kept
    ensures Present(b, obj.metadata.name) && replace ==>
              var stored := b.entries[obj.metadata.name].metadata;
              var check := MatchCheck(ReplaceOp, obj.metadata.name, obj.metadata.id, obj.metadata.revision, stored);
              && (check.Some? ==> r == Fail(b, check.value))
              && (check.None? ==>
                    WriteOutcome(b, r, obj.metadata.name, stored.creationTime, stored.id, RandomString(draws.first)))
  {
    var name := obj.metadata.name;
    match StoreRead(b, name)
    case Failure(e) =>
      if !e.DoesNotExist? then Fail(b, e)
      else Commit(b, Stamp(obj, now, RandomString(draws.first), RandomString(draws.second)))
    case Success(previous) =>
      if !replace then Fail(b, Conflict(AlreadyExistsMessage(name)))
      else
        match MatchCheck(ReplaceOp, name, obj.metadata.id, obj.metadata.revision, previous.metadata)
        case Some(e) => Fail(b, e)
        case None =>
          Commit(b, Stamp(obj, previous.metadata.creationTime, previous.metadata.id, RandomString(draws.first)))
  }

  /** `Update(object)` (kv.go:92-143, memory.go:70-110). */
  function Update(b: Backend, obj: Object, draws: Draws): (r: Step)
    ensures r.reply.err.Some? ==> Failed(b, r)
    ensures r.reply.err.None? ==> obj.metadata.name in r.entries && Wrote(b, r, r.entries[obj.metadata.name])
    ensures r.reply.err.None? ==> SameContent(r.entries[obj.metadata.name], obj)
    ensures obj.metadata.name in b.readFaults ==> r == Fail(b, Io(b.readFaults[obj.metadata.name]))
    ensures Absent(b, obj.metadata.name) ==> r == Fail(b, DoesNotExist(CannotUpdateMessage(obj.metadata.name)))
    ensures Present(b, obj.metadata.name) ==>
              var stored := b.entries[obj.metadata.name].metadata;
              var check := MatchCheck(UpdateOp, obj.metadata.name, obj.metadata.id, obj.metadata.revision, stored);
              && (check.Some? ==> r == Fail(b, check.value))
              && (check.None? ==>
                    WriteOutcome(b, r, obj.metadata.name, stored.creationTime, stored.id, RandomString(draws.first)))
  {
    var name := obj.metadata.name;
    match StoreRead(b, name)
    case Failure(e) =>
      if e.DoesNotExist? then Fail(b, DoesNotExist(CannotUpdateMessage(name))) else Fail(b, e)
    case Success(previous) =>
      match MatchCheck(UpdateOp, name, obj.metadata.id, obj.metadata.revision, previous.metadata)
      case Some(e) => Fail(b, e)
      case None =>
        Commit(b, Stamp(obj, previous.metadata.creationTime, previous.metadata.id, RandomString(draws.first)))
  }

  /** `Get(name)` (kv.go:145-161, memory.go:112-124); it has no effect on the store. */
  function Get(b: Backend, name: string): (r: (Object, Option<Error>))
    ensures r.1.None? <==> Present(b, name)
    ensures Present(b, name) ==> r.0 == b.entries[name]
    ensures Absent(b, name) ==> r == (ZeroObject, Some(DoesNotExist(NotFoundMessage(name))))
    ensures name in b.readFaults ==> r == (ZeroObject, Some(Io(b.readFaults[name])))
  {
    match StoreRead(b, name)
    case Failure(e) =>
      if e.DoesNotExist? then (ZeroObject, Some(DoesNotExist(NotFoundMessage(name)))) else (ZeroObject, Some(e))
    case Success(o) => (o, None)
  }

  /** `Delete(name, id, revision)` (kv.go:163-206, memory.go:126-162). */
  function Delete(b: Backend, name: string, id: string, revision: string): (r: Step)
    ensures r.reply.err.Some? ==> Failed(b, r)
    ensures r.reply.err.None? ==>
              name in b.entries && r.entries == b.entries - {name} && r.reply.meta == ResponseOf(b.entries[name])
    ensures name in b.readFaults ==> r == Fail(b, Io(b.readFaults[name]))
    ensures Absent(b, name) ==> r == Fail(b, DoesNotExist(NotFoundMessage(name)))
    ensures Present(b, name) ==>
              var check := MatchCheck(DeleteOp, name, id, revision, b.entries[name].metadata);
              if check.Some? then r == Fail(b, check.value)
              else if name in b.deleteFaults then r == Fail(b, Io(b.deleteFaults[name]))
              else r.reply.err.None?
  {
    match StoreRead(b, name)
    case Failure(e) =>
      if e.DoesNotExist? then Fail(b, DoesNotExist(NotFoundMessage(name))) else Fail(b, e)
    case Success(previous) =>
      match MatchCheck(DeleteOp, name, id, revision, previous.metadata)
      case Some(e) => Fail(b, e)
      case None =>
        match StoreDelete(b, name)
        case Failure(e) => Fail(b, e)
        case Success(entries) => Step(Reply(ResponseOf(previous), None), entries)
  }
}
