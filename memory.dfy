/**
 * The in-process backend of internal/database/memory.go: the same protocol written
 * directly over an `objects` map that the methods update in place. It is module
 * Protocol run on a backend that never fails. The mutex is not modelled: each method
 * runs as one atomic step.
 */
module Memory {
  import opened Wrappers
  import opened Objects
  import opened Tokens
  import Protocol

  class InMemoryDatabase {
    var objects: map<string, Object>

    /** `NewInMemoryDatabase()`: an empty map. */
    constructor ()
      ensures objects == map[]
    {
      objects := map[];
    }

    function State(): Protocol.Backend
      reads this
    {
      Protocol.Faultless(objects)
    }

    method Create(obj: Object, replace: bool, now: Time, draws: Protocol.Draws)
      returns (meta: MetadataResponse, err: Option<Error>)
      modifies this
      ensures Protocol.Step(Protocol.Reply(meta, err), objects)
              == Protocol.Create(old(State()), obj, replace, now, draws)
    {
      var o := obj;
      var found := o.metadata.name in objects;
      if found {
        var stored := objects[o.metadata.name].metadata;
        if !replace {
          return ZeroResponse, Some(Conflict(Protocol.AlreadyExistsMessage(o.metadata.name)));
        }
        var check := Protocol.MatchCheck(Protocol.ReplaceOp, o.metadata.name, o.metadata.id, o.metadata.revision, stored);
        if check.Some? {
          return ZeroResponse, check;
        }
        o := o.(metadata := o.metadata.(creationTime := stored.creationTime));
        o := o.(metadata := o.metadata.(id := stored.id));
        o := o.(metadata := o.metadata.(revision := RandomString(draws.first)));
      } else {
        o := o.(metadata := o.metadata.(creationTime := now));
        o := o.(metadata := o.metadata.(id := RandomString(draws.first)));
        o := o.(metadata := o.metadata.(revision := RandomString(draws.second)));
      }

      objects := objects[o.metadata.name := o];

      return MetadataResponse(o.metadata.id, o.metadata.revision), None;
    }

    method Update(obj: Object, draws: Protocol.Draws) returns (meta: MetadataResponse, err: Option<Error>)
      modifies this
      ensures Protocol.Step(Protocol.Reply(meta, err), objects) == Protocol.Update(old(State()), obj, draws)
    {
      var o := obj;
      if o.metadata.name !in objects {
        return ZeroResponse, Some(DoesNotExist(Protocol.CannotUpdateMessage(o.metadata.name)));
      }
      var stored := objects[o.metadata.name].metadata;
      var check := Protocol.MatchCheck(Protocol.UpdateOp, o.metadata.name, o.metadata.id, o.metadata.revision, stored);
      if check.Some? {
        return ZeroResponse, check;
      }
      o := o.(metadata := o.metadata.(creationTime := stored.creationTime));
      o := o.(metadata := o.metadata.(id := stored.id));
      o := o.(metadata := o.metadata.(revision := RandomString(draws.first)));

      objects := objects[o.metadata.name := o];

      return MetadataResponse(o.metadata.id, o.metadata.revision), None;
    }

    method Get(name: string) returns (o: Object, err: Option<Error>)
      ensures (o, err) == Protocol.Get(State(), name)
    {
      if name !in objects {
        return ZeroObject, Some(DoesNotExist(Protocol.NotFoundMessage(name)));
      }
      return objects[name], None;
    }

    method Delete(name: string, id: string, revision: string) returns (meta: MetadataResponse, err: Option<Error>)
      modifies this
      ensures Protocol.Step(Protocol.Reply(meta, err), objects) == Protocol.Delete(old(State()), name, id, revision)
    {
      if name !in objects {
        return ZeroResponse, Some(DoesNotExist(Protocol.NotFoundMessage(name)));
      }
      var previous := objects[name];
      var check := Protocol.MatchCheck(Protocol.DeleteOp, name, id, revision, previous.metadata);
      if check.Some? {
        return ZeroResponse, check;
      }

      objects := objects - {name};

      return MetadataResponse(previous.metadata.id, previous.metadata.revision), None;
    }
  }
}
