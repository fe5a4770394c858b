/**
 * The request-building logic of the HTTP client (internal/client/client.go): the base URI
 * with its trailing slash trimmed, the object URI with a query naming the write mode, and
 * how a GET's status code becomes an object, nothing, or an error. Sending requests and
 * decoding bodies are not modelled.
 */
module Client {
  import opened Wrappers
  import opened Objects

  /** The write modes of WriteObject (`CreateOrReplace`, `Create`, `Replace`). */
  datatype WriteMode = CreateOrReplace | CreateOnly | ReplaceOnly

  /** NewClient: one trailing '/' is removed from a URI longer than one character. */
  method NormalizeUri(uri: string) returns (r: string)
    ensures r == uri || r + "/" == uri
    ensures r != uri <==> |uri| > 1 && uri[|uri| - 1] == '/'
  {
    r := uri;
    if |r| > 1 && r[|r| - 1] == '/' {
      r := r[..|r| - 1];
    }
  }

  /** Reads a write mode back from the query of an object URI: the inverse of the suffix `WriteObject` appends. */
  function ModeOfQuery(query: string): Option<WriteMode> {
    if query == "" then Some(CreateOrReplace)
    else if query == "?replace=false" then Some(CreateOnly)
    else if query == "?create=false" then Some(ReplaceOnly)
    else None
  }

  /**
   * WriteObject: the object's URI is the base URI, '/', the object's name, then a query that
   * is empty for CreateOrReplace, "?replace=false" for Create and "?create=false" for Replace.
   */
  method ObjectUri(base: string, obj: Object, mode: WriteMode) returns (uri: string)
    ensures |uri| >= |base| + 1 + |obj.metadata.name|
    ensures uri[..|base| + 1 + |obj.metadata.name|] == base + "/" + obj.metadata.name
    ensures ModeOfQuery(uri[|base| + 1 + |obj.metadata.name|..]) == Some(mode)
    ensures mode == CreateOrReplace <==> uri == base + "/" + obj.metadata.name
  {
    uri := base + "/" + obj.metadata.name;
    match mode
    case CreateOrReplace =>
    case CreateOnly =>
      uri := uri + "?replace=false";
    case ReplaceOnly =>
      uri := uri + "?create=false";
  }

  /** What GetObject returns: an object, no object and no error (404), or an error. */
  datatype Fetched = Found(value: Object) | Missing | Failed(message: string)

  /**
   * GetObject after the response arrived: 404 means no object and no error, any other
   * status but 200 is an error (`serverError` is what getError made of the response), and
   * on 200 the decoded body is the object. `decoded` is the JSON decoder's outcome.
   */
  function GetObjectResult(status: int, serverError: string, decoded: Result<Object, string>): (r: Fetched)
    ensures r == Missing <==> status == 404
    ensures r.Found? <==> status == 200 && decoded.Success?
    ensures r.Found? ==> r.value == decoded.value
    ensures status != 200 && status != 404 ==> r == Failed(serverError)
  {
    if status == 404 then Missing
    else if status != 200 then Failed(serverError)
    else match decoded
      case Success(o) => Found(o)
      case Failure(e) => Failed("parsing object: " + e)
  }
}
