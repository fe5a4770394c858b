/**
 * The backend-agnostic engine of internal/database/kv.go: `KvDatabase` wraps a key-value
 * store and runs the protocol of module Protocol over it. The lock that serialises the
 * operations is not modelled: each method runs as one atomic step.
 */
module Kv {
  import opened Wrappers
  import opened Objects
  import opened Tokens
  import Protocol

  /**
   * A key-value backend (the KeyValueStore interface). The fault maps name the keys on
   * which the backend's Read, Write or Delete fail with an I/O error; they do not change.
   */
  class KeyValueStore {
    var entries: map<string, Object>
    const readFaults: map<string, string>
    const writeFaults: map<string, string>
    const deleteFaults: map<string, string>

    constructor (entries: map<string, Object>, readFaults: map<string, string>,
                 writeFaults: map<string, string>, deleteFaults: map<string, string>)
      ensures State() == Protocol.Backend(entries, readFaults, writeFaults, deleteFaults)
    {
      this.entries := entries;
      this.readFaults := readFaults;
      this.writeFaults := writeFaults;
      this.deleteFaults := deleteFaults;
    }

    function State(): Protocol.Backend
      reads this
    {
      Protocol.Backend(entries, readFaults, writeFaults, deleteFaults)
    }

    method Read(key: string) returns (r: Result<Object, Error>)
      ensures r == Protocol.StoreRead(State(), key)
    {
      if key in readFaults {
        return Failure(Io(readFaults[key]));
      }
      if key in entries {
        return Success(entries[key]);
      }
      return Failure(DoesNotExist(Protocol.NoSuchFile));
    }

    method Write(key: string, value: Object) returns (err: Option<Error>)
      modifies this
      ensures match Protocol.StoreWrite(old(State()), key, value)
              case Success(m) => err.None? && entries == m
              case Failure(e) => err == Some(e) && entries == old(entries)
    {
      if key in writeFaults {
        return Some(Io(writeFaults[key]));
      }
      entries := entries[key := value];
      return None;
    }

    method Delete(key: string) returns (err: Option<Error>)
      modifies this
      ensures match Protocol.StoreDelete(old(State()), key)
              case Success(m) => err.None? && entries == m
              case Failure(e) => err == Some(e) && entries == old(entries)
    {
      if key in deleteFaults {
        return Some(Io(deleteFaults[key]));
      }
      if key !in entries {
        return Some(DoesNotExist(Protocol.NoSuchFile));
      }
      entries := entries - {key};
      return None;
    }
  }

  class KvDatabase {
    const store: KeyValueStore

    /** `NewKvDatabase(mutex, store)`. */
    constructor (store: KeyValueStore)
      ensures this.store == store
    {
      this.store := store;
    }

    method Create(obj: Object, replace: bool, now: Time, draws: Protocol.Draws)
      returns (meta: MetadataResponse, err: Option<Error>)
      modifies store
      ensures Protocol.Step(Protocol.Reply(meta, err), store.entries)
              == Protocol.Create(old(store.State()), obj, replace, now, draws)
    {
      var o := obj;
      var previous := store.Read(o.metadata.name);
      var found := true;
      if previous.Failure? {
        if previous.error.DoesNotExist? {
          found := false;
        } else {
          return ZeroResponse, Some(previous.error);
        }
      }
      if found {
        if !replace {
          return ZeroResponse, Some(Conflict(Protocol.AlreadyExistsMessage(o.metadata.name)));
        }
        var stored := previous.value.metadata;
        var check := Protocol.MatchCheck(Protocol.ReplaceOp, o.metadata.name, o.metadata.id, o.metadata.revision, stored);
        if check.Some? {
          return ZeroResponse, check;
        }
        o := o.(metadata := o.metadata.(creationTime := stored.creationTime));
        o := o.(metadata := o.metadata.(id := stored.id));
        o := o.(metadata := o.metadata.(revision := RandomString(draws.first)));
      } else {
        o := o.(metadata := o.metadata.(creationTime := now));
        o := o.(metadata := o.metadata.(id := RandomString(draws.first)));
        o := o.(metadata := o.metadata.(revision := RandomString(draws.second)));
      }

      var werr := store.Write(o.metadata.name, o);
      if werr.Some? {
        return ZeroResponse, werr;
      }
      return MetadataResponse(o.metadata.id, o.metadata.revision), None;
    }

    method Update(obj: Object, draws: Protocol.Draws) returns (meta: MetadataResponse, err: Option<Error>)
      modifies store
      ensures Protocol.Step(Protocol.Reply(meta, err), store.entries) == Protocol.Update(old(store.State()), obj, draws)
    {
      var o := obj;
      var previous := store.Read(o.metadata.name);
      if previous.Failure? {
        if previous.error.DoesNotExist? {
          return ZeroResponse, Some(DoesNotExist(Protocol.CannotUpdateMessage(o.metadata.name)));
        }
        return ZeroResponse, Some(previous.error);
      }
      var stored := previous.value.metadata;
      var check := Protocol.MatchCheck(Protocol.UpdateOp, o.metadata.name, o.metadata.id, o.metadata.revision, stored);
      if check.Some? {
        return ZeroResponse, check;
      }
      o := o.(metadata := o.metadata.(creationTime := stored.creationTime));
      o := o.(metadata := o.metadata.(id := stored.id));
      o := o.(metadata := o.metadata.(revision := RandomString(draws.first)));

      var werr := store.Write(o.metadata.name, o);
      if werr.Some? {
        return ZeroResponse, werr;
      }
      return MetadataResponse(o.metadata.id, o.metadata.revision), None;
    }

    method Get(name: string) returns (o: Object, err: Option<Error>)
      ensures (o, err) == Protocol.Get(store.State(), name)
    {
      var read := store.Read(name);
      if read.Failure? {
        if read.error.DoesNotExist? {
          return ZeroObject, Some(DoesNotExist(Protocol.NotFoundMessage(name)));
        }
        return ZeroObject, Some(read.error);
      }
      return read.value, None;
    }

    method Delete(name: string, id: string, revision: string) returns (meta: MetadataResponse, err: Option<Error>)
      modifies store
      ensures Protocol.Step(Protocol.Reply(meta, err), store.entries) == Protocol.Delete(old(store.State()), name, id, revision)
    {
      var previous := store.Read(name);
      if previous.Failure? {
        if previous.error.DoesNotExist? {
          return ZeroResponse, Some(DoesNotExist(Protocol.NotFoundMessage(name)));
        }
        return ZeroResponse, Some(previous.error);
      }
      var check := Protocol.MatchCheck(Protocol.DeleteOp, name, id, revision, previous.value.metadata);
      if check.Some? {
        return ZeroResponse, check;
      }
      var derr := store.Delete(name);
      if derr.Some? {
        return ZeroResponse, derr;
      }
      return MetadataResponse(previous.value.metadata.id, previous.value.metadata.revision), None;
    }
  }
}
