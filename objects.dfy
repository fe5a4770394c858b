/**
 * The object model shared by every layer of the store (internal/database/interface.go):
 * objects, their metadata envelope, the metadata response of the mutating operations
 * and the closed set of error kinds the engine reports.
 */
module Objects {

  /** A timestamp (time.Time), abstracted to a tick count; 0 is the zero time. */
  type Time = int

  const ZeroTime: Time := 0

  /**
   * The opaque `Spec` and `Status` payloads (Go `any` decoded from JSON or YAML).
   * The engine never looks inside them; it only copies them.
   */
  datatype Value =
    | Null
    | Bool(b: bool)
    | Number(n: int)
    | Text(s: string)
    | List(items: seq<Value>)
    | Dict(fields: map<string, Value>)

  datatype ObjectMetadata = ObjectMetadata(
    name: string,
    labels: map<string, string>,
    creationTime: Time,
    id: string,       // assigned on creation, never changed afterwards
    revision: string  // replaced on every successful write
  )

  datatype Object = Object(
    kind: string,
    version: string,
    metadata: ObjectMetadata,
    spec: Value,
    status: Value
  )

  /** The `{Id, Revision}` pair returned by the mutating operations. */
  datatype MetadataResponse = MetadataResponse(id: string, revision: string)

  /**
   * Error kinds. `Conflict` and `DoesNotExist` are the two typed errors of the package;
   * `Invalid` is the plain `errors.New` value of the "revision without id" check; `Io`
   * stands for any error a key-value backend reports (a file that cannot be opened or
   * decoded, a failed write). `message` is what `Error()` returns for each of them.
   */
  datatype Error =
    | Conflict(message: string)
    | DoesNotExist(message: string)
    | Invalid(message: string)
    | Io(message: string)

  const ZeroMetadata := ObjectMetadata("", map[], ZeroTime, "", "")

  /** `Object{}`. */
  const ZeroObject := Object("", "", ZeroMetadata, Null, Null)

  /** `MetadataResponse{}`: the value every failed mutating operation returns. */
  const ZeroResponse := MetadataResponse("", "")

  /** The response that describes a stored object: its id and its revision. */
  function ResponseOf(o: Object): (r: MetadataResponse)
    ensures r.id == o.metadata.id && r.revision == o.metadata.revision
    ensures r == ZeroResponse <==> o.metadata.id == "" && o.metadata.revision == ""
  {
    MetadataResponse(o.metadata.id, o.metadata.revision)
  }
}
