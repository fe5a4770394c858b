/**
 * The HTTP front of the storage engine (internal/apiserver/server.go): the path format
 * that every object URL must match, and the decision `ServeHTTP` takes for each request.
 * Reading the request, encoding JSON and logging are not modelled: the decoder's outcome
 * is part of the request, and a response is its status and what its body carries.
 */
module ApiServer {
  import opened Wrappers
  import opened Objects
  import opened Tokens
  import Protocol
  import Kv

  /** `[a-z0-9]`: the first character of a path segment. */
  predicate LeadChar(c: char) {
    ('a' <= c <= 'z') || ('0' <= c <= '9')
  }

  /** `[a-z0-9-]`: the other characters of a path segment. */
  predicate SegmentChar(c: char) {
    LeadChar(c) || c == '-'
  }

  /**
   * The language of the regular expression `^(/[a-z0-9][a-z0-9-]*)+$`, written as its
   * grammar: a slash, a lead character, then `AfterLead`.
   */
  predicate PathFormat(p: string): (ok: bool)
    decreases |p|, 0
    ensures ok ==> |p| >= 2 && p[0] == '/' && p[|p| - 1] != '/'
  {
    |p| >= 2 && p[0] == '/' && LeadChar(p[1]) && AfterLead(p[2..])
  }

  /** What may follow the lead character of a segment: more of it, or another segment. */
  predicate AfterLead(s: string): (ok: bool)
    decreases |s|, 1
    ensures ok && s != [] ==> s[|s| - 1] != '/'
  {
    s == [] || (SegmentChar(s[0]) && AfterLead(s[1..])) || PathFormat(s)
  }

  /**
   * An independent description of the same paths: only slashes and segment characters,
   * and every slash followed by a lead character.
   */
  predicate SlashesLead(s: string) {
    forall i :: 0 <= i < |s| ==> SlashLeadsAt(s, i)
  }

  predicate PathShape(p: string) {
    |p| >= 1 && p[0] == '/' && SlashesLead(p)
  }

  /** One step of `SlashesLead`, as the character at `i` and the one after it. */
  predicate SlashLeadsAt(s: string, i: int)
    requires 0 <= i < |s|
  {
    if s[i] == '/' then i + 1 < |s| && LeadChar(s[i + 1]) else SegmentChar(s[i])
  }

  lemma SlashesLeadUnfold(s: string)
    requires s != []
    ensures SlashesLead(s) <==> SlashLeadsAt(s, 0) && SlashesLead(s[1..])
  {
    var t := s[1..];
    forall i | 0 <= i < |t|
      ensures SlashLeadsAt(t, i) <==> SlashLeadsAt(s, i + 1)
    {
      assert t[i] == s[i + 1];
      if i + 1 < |t| {
        assert t[i + 1] == s[i + 2];
      }
    }
    if SlashLeadsAt(s, 0) && SlashesLead(t) {
      forall i | 0 < i < |s|
        ensures SlashLeadsAt(s, i)
      {
        assert SlashLeadsAt(t, i - 1);
      }
    }
  }

  lemma {:induction false} AfterLeadIff(s: string)
    ensures AfterLead(s) <==> SlashesLead(s)
    decreases |s|
  {
    if s != [] {
      SlashesLeadUnfold(s);
      if s[0] == '/' {
        assert AfterLead(s) == PathFormat(s);
        if |s| >= 2 && LeadChar(s[1]) {
          SlashesLeadUnfold(s[1..]);
          assert s[1..][1..] == s[2..];
          AfterLeadIff(s[2..]);
        }
      } else {
        assert !PathFormat(s);
        AfterLeadIff(s[1..]);
      }
    }
  }

  /** The grammar and the character-level description accept exactly the same paths. */
  lemma PathFormatIff(p: string)
    ensures PathFormat(p) <==> PathShape(p)
  {
    AfterLeadIff(p);
    if |p| >= 1 && p[0] == '/' {
      assert AfterLead(p) == PathFormat(p);
    }
  }

  /**
   * What a matching path looks like: it starts with a slash and does not end with one,
   * it never has two slashes in a row, and the object name after the first slash is not
   * empty and starts with a lowercase letter or a digit.
   */
  lemma PathFormatFacts(p: string)
    requires PathFormat(p)
    ensures |p| >= 2 && p[0] == '/' && p[|p| - 1] != '/'
    ensures forall i :: 0 <= i < |p| - 1 && p[i] == '/' ==> p[i + 1] != '/'
    ensures forall i :: 0 <= i < |p| && p[i] != '/' ==> SegmentChar(p[i])
    ensures |p[1..]| >= 1 && LeadChar(p[1..][0])
  {
    PathFormatIff(p);
    assert SlashLeadsAt(p, |p| - 1);
    assert forall i :: 0 <= i < |p| - 1 && p[i] == '/' ==> SlashLeadsAt(p, i);
    assert forall i :: 0 <= i < |p| && p[i] != '/' ==> SlashLeadsAt(p, i);
  }

  /** Request parts that matter to the handler; `body` is what the JSON decoder made of it. */
  datatype Request = Request(verb: string, path: string, query: map<string, seq<string>>,
                             body: Result<Object, string>)

  /** What a response body carries. */
  datatype Body =
    | Empty
    | Welcome
    | VersionInfo
    | Message(text: string)
    | ObjectBody(obj: Object)
    | MetaBody(meta: MetadataResponse)

  /**
   * A response, or the handler panicking: the single-value type assertion
   * `err.(*database.DoesNotExist)` panics on any other error type.
   */
  datatype Response = Reply(status: int, body: Body) | Panicked

  datatype Served = Served(response: Response, entries: map<string, Object>)

  /** `query[key]` when it holds exactly one value. */
  function Single(query: map<string, seq<string>>, key: string): (r: Option<string>)
    ensures r.Some? <==> key in query && |query[key]| == 1
    ensures r.Some? ==> r.value == query[key][0]
  {
    if key in query && |query[key]| == 1 then Some(query[key][0]) else None
  }

  /**
   * The `id` argument the handler passes to Delete: a single `revision` value takes the
   * place of a single `id` value. The `revision` argument is always empty.
   */
  function DeleteId(query: map<string, seq<string>>): (id: string)
    ensures Single(query, "revision").Some? ==> id == Single(query, "revision").value
    ensures Single(query, "revision").None? && Single(query, "id").Some? ==> id == Single(query, "id").value
    ensures Single(query, "revision").None? && Single(query, "id").None? ==> id == ""
  {
    var id := if Single(query, "id").Some? then Single(query, "id").value else "";
    if Single(query, "revision").Some? then Single(query, "revision").value else id
  }

  /** The answer to a PUT: any error is reported with status 400. */
  function PutAnswer(reply: Protocol.Reply): (r: Response)
    ensures r.Reply?
    ensures r.status == 200 <==> reply.err.None?
    ensures reply.err.Some? ==> r == Reply(400, Message(reply.err.value.message))
    ensures reply.err.None? ==> r.body == MetaBody(reply.meta)
  {
    match reply.err
    case None => Reply(200, MetaBody(reply.meta))
    case Some(e) => Reply(400, Message(e.message))
  }

  /** The answer to a POST or DELETE: 404 on DoesNotExist, a panic on any other error. */
  function ChangeAnswer(reply: Protocol.Reply): (r: Response)
    ensures r.Panicked? <==> reply.err.Some? && !reply.err.value.DoesNotExist?
    ensures r == Reply(200, MetaBody(reply.meta)) <==> reply.err.None?
    ensures reply.err.Some? && reply.err.value.DoesNotExist? ==> r == Reply(404, Message(reply.err.value.message))
  {
    match reply.err
    case None => Reply(200, MetaBody(reply.meta))
    case Some(e) => if e.DoesNotExist? then Reply(404, Message(e.message)) else Panicked
  }

  /** The handler's decision for one request on a store in state `b`. */
  function Respond(b: Protocol.Backend, req: Request, now: Time, draws: Protocol.Draws): (r: Served)
    ensures req.path == "/" ==>
              r == Served(if req.verb == "GET" then Reply(200, Welcome) else Reply(400, Empty), b.entries)
    ensures req.path == "/_version" && req.verb == "GET" ==> r == Served(Reply(200, VersionInfo), b.entries)
    ensures req.path != "/" && !(req.path == "/_version" && req.verb == "GET") && !PathFormat(req.path) ==>
              r == Served(Reply(400, Message("Invalid path")), b.entries)
    ensures PathFormat(req.path) && req.verb in {"PUT", "POST"} && req.body.Failure? ==>
              r == Served(Reply(400, Message("error reading input: " + req.body.error)), b.entries)
    ensures PathFormat(req.path) && req.verb in {"PUT", "POST"} && req.body.Success?
            && req.body.value.metadata.name != req.path[1..] ==>
              r == Served(Reply(400, Message("Mismatched name")), b.entries)
    ensures r.entries != b.entries ==>
              && PathFormat(req.path) && req.verb in {"PUT", "POST", "DELETE"}
              && r.response.Reply? && r.response.status == 200
  {
    if req.path == "/" then
      Served(if req.verb == "GET" then Reply(200, Welcome) else Reply(400, Empty), b.entries)
    else if req.path == "/_version" && req.verb == "GET" then
      Served(Reply(200, VersionInfo), b.entries)
    else if !PathFormat(req.path) then
      Served(Reply(400, Message("Invalid path")), b.entries)
    else
      var name := req.path[1..];
      if req.verb == "GET" then
        var got := Protocol.Get(b, name);
        match got.1
        case None => Served(Reply(200, ObjectBody(got.0)), b.entries)
        case Some(e) => Served(if e.DoesNotExist? then Reply(404, Message("No such object")) else Panicked, b.entries)
      else if req.verb == "PUT" || req.verb == "POST" then
        match req.body
        case Failure(m) => Served(Reply(400, Message("error reading input: " + m)), b.entries)
        case Success(o) =>
          if o.metadata.name != name then Served(Reply(400, Message("Mismatched name")), b.entries)
          else if req.verb == "PUT" then
            var s := Protocol.Create(b, o, true, now, draws);
            Served(PutAnswer(s.reply), s.entries)
          else
            var s := Protocol.Update(b, o, draws);
            Served(ChangeAnswer(s.reply), s.entries)
      else if req.verb == "DELETE" then
        var s := Protocol.Delete(b, name, DeleteId(req.query), "");
        Served(ChangeAnswer(s.reply), s.entries)
      else
        Served(Reply(200, Empty), b.entries)
  }

  class ApiServer {
    /** The engine the server was connected to (see "Left out" on the kind of engine). */
    const db: Kv.KvDatabase

    constructor (db: Kv.KvDatabase)
      ensures this.db == db
    {
      this.db := db;
    }

    /** `ServeHTTP(res, req)`; `now` and `draws` stand for the clock and the random source. */
    method ServeHTTP(req: Request, now: Time, draws: Protocol.Draws) returns (res: Response)
      modifies db.store
      ensures Served(res, db.store.entries) == Respond(old(db.store.State()), req, now, draws)
    {
      if req.path == "/" {
        if req.verb == "GET" {
          return Reply(200, Welcome);
        } else {
          return Reply(400, Empty);
        }
      }

      if req.path == "/_version" && req.verb == "GET" {
        return Reply(200, VersionInfo);
      }

      if !PathFormat(req.path) {
        return Reply(400, Message("Invalid path"));
      }

      var name := req.path[1..];

      if req.verb == "GET" {
        var o, err := db.Get(name);
        if err.Some? {
          if err.value.DoesNotExist? {
            return Reply(404, Message("No such object"));
          }
          return Panicked;
        }
        res := Reply(200, ObjectBody(o));
      } else if req.verb == "PUT" {
        if req.body.Failure? {
          return Reply(400, Message("error reading input: " + req.body.error));
        }
        var o := req.body.value;
        if o.metadata.name != name {
          return Reply(400, Message("Mismatched name"));
        }
        var meta, err := db.Create(o, true, now, draws);
        if err.Some? {
          return Reply(400, Message(err.value.message));
        }
        res := Reply(200, MetaBody(meta));
      } else if req.verb == "POST" {
        if req.body.Failure? {
          return Reply(400, Message("error reading input: " + req.body.error));
        }
        var o := req.body.value;
        if o.metadata.name != name {
          return Reply(400, Message("Mismatched name"));
        }
        var meta, err := db.Update(o, draws);
        if err.Some? {
          if !err.value.DoesNotExist? {
            return Panicked;
          }
          return Reply(404, Message(err.value.message));
        }
        res := Reply(200, MetaBody(meta));
      } else if req.verb == "DELETE" {
        var query := req.query;
        var id := "";
        if "id" in query && |query["id"]| == 1 {
          id := query["id"][0];
        }
        var revision := "";
        if "revision" in query && |query["revision"]| == 1 {
          id := query["revision"][0];
        }
        var meta, err := db.Delete(name, id, revision);
        if err.Some? {
          if !err.value.DoesNotExist? {
            return Panicked;
          }
          return Reply(404, Message(err.value.message));
        }
        res := Reply(200, MetaBody(meta));
      } else {
        res := Reply(200, Empty);
      }
    }
  }

  /** Only PUT, POST and DELETE on a matching path can change the store. */
  lemma ReadsNeverWrite(b: Protocol.Backend, req: Request, now: Time, draws: Protocol.Draws)
    requires req.verb !in {"PUT", "POST", "DELETE"} || !PathFormat(req.path)
    ensures Respond(b, req, now, draws).entries == b.entries
  {
  }

  /** GET answers the stored object, 404 for an absent name, and panics on a backend fault. */
  lemma GetAnswers(b: Protocol.Backend, req: Request, now: Time, draws: Protocol.Draws)
    requires req.verb == "GET" && PathFormat(req.path) && req.path != "/_version"
    ensures var r := Respond(b, req, now, draws).response;
      && (Protocol.Present(b, req.path[1..]) ==> r == Reply(200, ObjectBody(b.entries[req.path[1..]])))
      && (Protocol.Absent(b, req.path[1..]) ==> r == Reply(404, Message("No such object")))
      && (req.path[1..] in b.readFaults <==> r.Panicked?)
  {
  }

  /** A PUT never panics: whatever goes wrong, the client receives status 400. */
  lemma PutNeverPanics(b: Protocol.Backend, req: Request, now: Time, draws: Protocol.Draws)
    requires req.verb == "PUT"
    ensures Respond(b, req, now, draws).response.Reply?
  {
  }

  /**
   * A PUT whose body decodes to an object of the path's name is a create-or-replace: it
   * writes what the engine's Create(object, true) writes, answers 200 with its tokens when
   * that succeeds and 400 with the error's text when it fails.
   */
  lemma PutIsCreateOrReplace(b: Protocol.Backend, req: Request, now: Time, draws: Protocol.Draws)
    requires req.verb == "PUT" && PathFormat(req.path)
    requires req.body.Success? && req.body.value.metadata.name == req.path[1..]
    ensures var s := Protocol.Create(b, req.body.value, true, now, draws);
      && Respond(b, req, now, draws) == Served(PutAnswer(s.reply), s.entries)
      && (s.reply.err.Some? ==> Respond(b, req, now, draws).response == Reply(400, Message(s.reply.err.value.message)))
      && (Respond(b, req, now, draws).response == Reply(200, MetaBody(s.reply.meta)) <==> s.reply.err.None?)
  {
  }

  /**
   * A POST whose body decodes to an object of the path's name is an update: it writes what
   * the engine's Update writes, answers 200 with its tokens on success, 404 with the
   * message on DoesNotExist, and panics on any other error.
   */
  lemma PostIsUpdate(b: Protocol.Backend, req: Request, now: Time, draws: Protocol.Draws)
    requires req.verb == "POST" && PathFormat(req.path)
    requires req.body.Success? && req.body.value.metadata.name == req.path[1..]
    ensures var s := Protocol.Update(b, req.body.value, draws);
      && Respond(b, req, now, draws) == Served(ChangeAnswer(s.reply), s.entries)
      && (s.reply.err.None? ==> Respond(b, req, now, draws).response == Reply(200, MetaBody(s.reply.meta)))
      && (s.reply.err.Some? && s.reply.err.value.DoesNotExist? ==>
            Respond(b, req, now, draws).response == Reply(404, Message(s.reply.err.value.message)))
  {
  }

  /**
   * Every DELETE on a matching path is the engine's Delete of the path's name, with the id
   * of `DeleteId` and an empty revision, answered as a POST is.
   */
  lemma DeleteIsDelete(b: Protocol.Backend, req: Request, now: Time, draws: Protocol.Draws)
    requires req.verb == "DELETE" && PathFormat(req.path)
    ensures var s := Protocol.Delete(b, req.path[1..], DeleteId(req.query), "");
      && Respond(b, req, now, draws) == Served(ChangeAnswer(s.reply), s.entries)
      && (s.reply.err.None? ==> Respond(b, req, now, draws).response == Reply(200, MetaBody(s.reply.meta)))
      && (s.reply.err.Some? && s.reply.err.value.DoesNotExist? ==>
            Respond(b, req, now, draws).response == Reply(404, Message(s.reply.err.value.message)))
  {
  }

  /**
   * The handler never reads the query of a PUT. The client sends its create-only mode
   * (`apply --if-not-exists`, which also clears the tokens) as `?replace=false`, yet an
   * existing object of that name is replaced: the answer is 200 with the stored id and a
   * new revision, and the stored entry takes the new content.
   */
  lemma PutIgnoresWriteMode(b: Protocol.Backend, req: Request, now: Time, draws: Protocol.Draws)
    requires req.verb == "PUT" && PathFormat(req.path)
    requires req.body.Success? && req.body.value.metadata.name == req.path[1..]
    requires req.body.value.metadata.id == "" && req.body.value.metadata.revision == ""
    requires Protocol.Present(b, req.path[1..]) && req.path[1..] !in b.writeFaults
    ensures var name := req.path[1..];
      var r := Respond(b, req, now, draws);
      && r.response == Reply(200, MetaBody(MetadataResponse(b.entries[name].metadata.id, RandomString(draws.first))))
      && name in r.entries && Protocol.SameContent(r.entries[name], req.body.value)
      && r.entries[name].metadata.id == b.entries[name].metadata.id
  {
  }

  /**
   * A POST that the engine refuses with anything but DoesNotExist (a conflict, an invalid
   * argument or a backend fault) makes the handler panic rather than answer 400,
   * and nothing is written.
   */
  lemma UpdateRefusalPanics(b: Protocol.Backend, req: Request, now: Time, draws: Protocol.Draws)
    requires req.verb == "POST" && PathFormat(req.path)
    requires req.body.Success? && req.body.value.metadata.name == req.path[1..]
    requires Protocol.Update(b, req.body.value, draws).reply.err.Some?
    requires !Protocol.Update(b, req.body.value, draws).reply.err.value.DoesNotExist?
    ensures Respond(b, req, now, draws) == Served(Panicked, b.entries)
  {
  }

  /** The same for a DELETE that the engine refuses with anything but DoesNotExist. */
  lemma DeleteRefusalPanics(b: Protocol.Backend, req: Request, now: Time, draws: Protocol.Draws)
    requires req.verb == "DELETE" && PathFormat(req.path)
    requires Protocol.Delete(b, req.path[1..], DeleteId(req.query), "").reply.err.Some?
    requires !Protocol.Delete(b, req.path[1..], DeleteId(req.query), "").reply.err.value.DoesNotExist?
    ensures Respond(b, req, now, draws) == Served(Panicked, b.entries)
  {
  }

  /**
   * A DELETE hands the engine the `revision` query value as the id, and never a revision:
   * `DELETE /<name>?revision=<r>` deletes only when `<r>` is the stored object's id.
   */
  lemma DeleteUsesRevisionAsId(b: Protocol.Backend, req: Request, now: Time, draws: Protocol.Draws, r: string)
    requires req.verb == "DELETE" && PathFormat(req.path)
    requires "revision" in req.query && req.query["revision"] == [r]
    ensures var s := Protocol.Delete(b, req.path[1..], r, "");
      Respond(b, req, now, draws) == Served(ChangeAnswer(s.reply), s.entries)
  {
  }

  /**
   * The consequence: on a store holding `name` with id `i` and revision `v`, asking to
   * delete it at revision `v` (when `v` differs from `i`) panics instead of deleting.
   */
  lemma DeleteByRevisionPanics(b: Protocol.Backend, req: Request, now: Time, draws: Protocol.Draws)
    requires req.verb == "DELETE" && PathFormat(req.path)
    requires Protocol.Present(b, req.path[1..])
    requires var m := b.entries[req.path[1..]].metadata;
      m.revision != "" && m.id != m.revision && "revision" in req.query && req.query["revision"] == [m.revision]
    ensures Respond(b, req, now, draws) == Served(Panicked, b.entries)
  {
    DeleteUsesRevisionAsId(b, req, now, draws, b.entries[req.path[1..]].metadata.revision);
  }

  /** On a store that never fails, a GET never panics. */
  lemma FaultlessGetNeverPanics(entries: map<string, Object>, req: Request, now: Time, draws: Protocol.Draws)
    requires req.verb == "GET"
    ensures Respond(Protocol.Faultless(entries), req, now, draws).response.Reply?
  {
  }
}
