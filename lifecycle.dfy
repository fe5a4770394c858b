/**
 * Properties of the protocol that relate several operations, or an operation and an
 * invariant of the whole store: the stored tokens, the lineage of a name across a delete
 * and a new create, and the concrete scenario of internal/database/database_test.go.
 */
module Lifecycle {
  import opened Objects
  import opened Tokens
  import opened Protocol

  /**
   * What every object the engine writes satisfies: it is stored under its own name and
   * carries a non-empty id and revision.
   */
  ghost predicate WellFormed(entries: map<string, Object>) {
    forall k :: k in entries ==>
      entries[k].metadata.name == k && entries[k].metadata.id != "" && entries[k].metadata.revision != ""
  }

  /**
   * The operations keep the store well formed, and on a well-formed store a successful
   * response is never the zero response, so callers can tell success from failure by it.
   */
  lemma CreatePreservesWellFormed(b: Backend, obj: Object, replace: bool, now: Time, draws: Draws)
    requires WellFormed(b.entries)
    ensures var r := Create(b, obj, replace, now, draws);
      WellFormed(r.entries) && (r.reply.err.None? ==> r.reply.meta.id != "" && r.reply.meta.revision != "")
  {
  }

  lemma UpdatePreservesWellFormed(b: Backend, obj: Object, draws: Draws)
    requires WellFormed(b.entries)
    ensures var r := Update(b, obj, draws);
      WellFormed(r.entries) && (r.reply.err.None? ==> r.reply.meta.id != "" && r.reply.meta.revision != "")
  {
  }

  lemma DeletePreservesWellFormed(b: Backend, name: string, id: string, revision: string)
    requires WellFormed(b.entries)
    ensures var r := Delete(b, name, id, revision);
      WellFormed(r.entries) && (r.reply.err.None? ==> r.reply.meta.id != "" && r.reply.meta.revision != "")
  {
  }

  /** A token that some draw of the random source rendered to. */
  ghost predicate IsMinted(t: string, used: set<uint32>) {
    exists u :: u in used && RandomString(u) == t
  }

  /** Every stored id and revision was rendered from a draw in `used`. */
  ghost predicate Minted(entries: map<string, Object>, used: set<uint32>) {
    forall k :: k in entries ==>
      IsMinted(entries[k].metadata.id, used) && IsMinted(entries[k].metadata.revision, used)
  }

  lemma MintedGrows(t: string, used: set<uint32>, more: set<uint32>)
    requires IsMinted(t, used) && used <= more
    ensures IsMinted(t, more)
  {
    var u :| u in used && RandomString(u) == t;
    assert u in more;
  }

  lemma MintedNow(d: uint32, used: set<uint32>)
    requires d in used
    ensures IsMinted(RandomString(d), used)
  {
  }

  /** Under the freshness assumption on `d`, its token is none of the tokens seen so far. */
  lemma FreshTokenUnseen(d: uint32, used: set<uint32>, seen: set<string>)
    requires d !in used
    requires forall t :: t in seen ==> IsMinted(t, used)
    ensures RandomString(d) !in seen
  {
    FreshDrawFreshToken(d, used);
    forall t | t in seen
      ensures t != RandomString(d)
    {
      var u :| u in used && RandomString(u) == t;
    }
  }

  /**
   * Tokens never repeat. If every token seen so far (`seen`, which may hold the ids and
   * revisions of objects since deleted) was rendered from an earlier draw, and the random
   * source hands out draws it has not produced before, then a successful Create answers
   * with a revision never seen, a Create of an absent name with an id never seen, and the
   * store stays rendered from the draws used so far.
   */
  lemma CreateMintsFreshTokens(b: Backend, obj: Object, replace: bool, now: Time, draws: Draws,
                               used: set<uint32>, seen: set<string>)
    requires Minted(b.entries, used)
    requires forall t :: t in seen ==> IsMinted(t, used)
    requires draws.first !in used && draws.second !in used
    ensures var r := Create(b, obj, replace, now, draws);
      && Minted(r.entries, used + {draws.first, draws.second})
      && (r.reply.err.None? ==> r.reply.meta.revision !in seen)
      && (r.reply.err.None? && Absent(b, obj.metadata.name) ==> r.reply.meta.id !in seen)
  {
    var r := Create(b, obj, replace, now, draws);
    var more := used + {draws.first, draws.second};
    FreshTokenUnseen(draws.first, used, seen);
    FreshTokenUnseen(draws.second, used, seen);
    MintedNow(draws.first, more);
    MintedNow(draws.second, more);
    forall k | k in r.entries
      ensures IsMinted(r.entries[k].metadata.id, more) && IsMinted(r.entries[k].metadata.revision, more)
    {
      if k in b.entries && r.entries[k] == b.entries[k] {
        MintedGrows(b.entries[k].metadata.id, used, more);
        MintedGrows(b.entries[k].metadata.revision, used, more);
      } else {
        assert k == obj.metadata.name && Present(b, k) ==> k in b.entries;
        if Present(b, k) {
          MintedGrows(b.entries[k].metadata.id, used, more);
        }
      }
    }
  }

  /** The same for Update: its revision is new and the store stays rendered from the draws used. */
  lemma UpdateMintsFreshTokens(b: Backend, obj: Object, draws: Draws, used: set<uint32>, seen: set<string>)
    requires Minted(b.entries, used)
    requires forall t :: t in seen ==> IsMinted(t, used)
    requires draws.first !in used
    ensures var r := Update(b, obj, draws);
      && Minted(r.entries, used + {draws.first})
      && (r.reply.err.None? ==> r.reply.meta.revision !in seen)
  {
    var r := Update(b, obj, draws);
    var more := used + {draws.first};
    FreshTokenUnseen(draws.first, used, seen);
    MintedNow(draws.first, more);
    forall k | k in r.entries
      ensures IsMinted(r.entries[k].metadata.id, more) && IsMinted(r.entries[k].metadata.revision, more)
    {
      MintedGrows(b.entries[k].metadata.id, used, more);
      if r.entries[k] == b.entries[k] {
        MintedGrows(b.entries[k].metadata.revision, used, more);
      }
    }
  }

  /** The empty store, where every engine starts, holds no token. */
  lemma EmptyStoreMinted(used: set<uint32>)
    ensures Minted(map[], used)
  {
  }

  /** A Delete draws nothing and keeps every stored token rendered from the draws used. */
  lemma DeleteKeepsMinted(b: Backend, name: string, id: string, revision: string, used: set<uint32>)
    requires Minted(b.entries, used)
    ensures Minted(Delete(b, name, id, revision).entries, used)
  {
  }

  /** A successful replace or update gives the stored object a revision it did not have. */
  lemma RewriteChangesRevision(b: Backend, obj: Object, replace: bool, now: Time, draws: Draws, used: set<uint32>)
    requires Minted(b.entries, used) && draws.first !in used && draws.second !in used
    requires Present(b, obj.metadata.name)
    ensures var r := Create(b, obj, replace, now, draws);
      r.reply.err.None? ==> r.reply.meta.revision != b.entries[obj.metadata.name].metadata.revision
    ensures var r := Update(b, obj, draws);
      r.reply.err.None? ==> r.reply.meta.revision != b.entries[obj.metadata.name].metadata.revision
  {
    var seen := {b.entries[obj.metadata.name].metadata.revision};
    CreateMintsFreshTokens(b, obj, replace, now, draws, used, seen);
    UpdateMintsFreshTokens(b, obj, draws, used, seen);
  }

  /**
   * A Delete followed by a Create of the same name starts a new lineage: the new object's
   * id differs from the deleted one's.
   */
  lemma DeleteThenCreateStartsNewLineage(b: Backend, name: string, id: string, revision: string,
                                         obj: Object, replace: bool, now: Time, draws: Draws, used: set<uint32>)
    requires Minted(b.entries, used) && draws.first !in used
    requires obj.metadata.name == name
    requires Delete(b, name, id, revision).reply.err.None?
    requires Create(b.(entries := Delete(b, name, id, revision).entries), obj, replace, now, draws).reply.err.None?
    ensures Create(b.(entries := Delete(b, name, id, revision).entries), obj, replace, now, draws).reply.meta.id
            != Delete(b, name, id, revision).reply.meta.id
  {
    var d := Delete(b, name, id, revision);
    var b' := b.(entries := d.entries);
    assert Absent(b', name);
    FreshTokenUnseen(draws.first, used, {b.entries[name].metadata.id});
  }

  /** With replace=false, a second create of the same name is a conflict and writes nothing. */
  lemma CreateTwiceConflicts(b: Backend, o1: Object, o2: Object, now1: Time, now2: Time, d1: Draws, d2: Draws)
    requires o1.metadata.name == o2.metadata.name
    requires Create(b, o1, false, now1, d1).reply.err.None?
    ensures var b' := b.(entries := Create(b, o1, false, now1, d1).entries);
      Create(b', o2, false, now2, d2) == Fail(b', Conflict(AlreadyExistsMessage(o1.metadata.name)))
  {
  }

  /** A store that never fails never reports an I/O error. */
  lemma FaultlessNeverIo(entries: map<string, Object>, obj: Object, replace: bool, now: Time, draws: Draws,
                         name: string, id: string, revision: string)
    ensures var b := Faultless(entries);
      && !(Create(b, obj, replace, now, draws).reply.err.Some? && Create(b, obj, replace, now, draws).reply.err.value.Io?)
      && !(Update(b, obj, draws).reply.err.Some? && Update(b, obj, draws).reply.err.value.Io?)
      && !(Delete(b, name, id, revision).reply.err.Some? && Delete(b, name, id, revision).reply.err.value.Io?)
      && !(Get(b, name).1.Some? && Get(b, name).1.value.Io?)
  {
  }

  /**
   * The update test of internal/database/database_test.go, extended by one step. On an
   * empty store an update of "one" is "does not exist". Then create "one" (the caller's
   * tokens are ignored). Then:
   * - an update with a wrong id is the id conflict;
   * - one with the right id and a wrong revision is the revision conflict;
   * - one with a revision but no id is refused;
   * - one with the returned id and revision succeeds, keeps the id, changes the revision
   *   and stores the tokens it answers;
   * - one with the id alone succeeds and stores the tokens it answers;
   * - one with neither (`p`, new content) succeeds, and the stored object is "one" with
   *   non-empty tokens, the tokens answered, and `p`'s content.
   * The extension, which the test does not send: after the update with id and revision,
   * an update with the now stale revision is the revision conflict. The only freshness
   * needed is that the update's draw differs from the draw of the first revision.
   */
  lemma UpdateScenario(o: Object, p: Object, now: Time, d1: Draws, d2: Draws, d3: Draws, d4: Draws, d5: Draws,
                       wrongId: string, wrongRevision: string)
    requires o.metadata.name == "one" && p.metadata.name == "one"
    requires wrongId != "" && wrongId != RandomString(d1.first)
    requires wrongRevision != "" && wrongRevision != RandomString(d1.second)
    requires d2.first != d1.second
    ensures Update(Faultless(map[]), o, d1) == Fail(Faultless(map[]), DoesNotExist(CannotUpdateMessage("one")))
    ensures var s1 := Create(Faultless(map[]), o, false, now, d1);
      var b1 := Faultless(s1.entries);
      var id := s1.reply.meta.id;
      var revision := s1.reply.meta.revision;
      && s1.reply.err.None? && id != "" && revision != ""
      && Update(b1, o.(metadata := o.metadata.(id := wrongId, revision := revision)), d2)
           == Fail(b1, Conflict(IdConflictMessage(UpdateOp, "one")))
      && Update(b1, o.(metadata := o.metadata.(id := id, revision := wrongRevision)), d2)
           == Fail(b1, Conflict(RevisionConflictMessage(UpdateOp, "one")))
      && Update(b1, o.(metadata := o.metadata.(id := "", revision := revision)), d2)
           == Fail(b1, Invalid(RevisionWithoutIdMessage(UpdateOp)))
      && var u := o.(metadata := o.metadata.(id := id, revision := revision));
         var s2 := Update(b1, u, d2);
         && s2.reply.err.None?
         && s2.reply.meta.id == id
         && s2.reply.meta.revision != revision
         && "one" in s2.entries
         && s2.entries["one"].metadata.id == s2.reply.meta.id
         && s2.entries["one"].metadata.revision == s2.reply.meta.revision
         && Update(Faultless(s2.entries), u, d3) == Fail(Faultless(s2.entries), Conflict(RevisionConflictMessage(UpdateOp, "one")))
         && var s3 := Update(Faultless(s2.entries), o.(metadata := o.metadata.(id := id, revision := "")), d4);
            && s3.reply.err.None?
            && "one" in s3.entries
            && s3.entries["one"].metadata.id == s3.reply.meta.id
            && s3.entries["one"].metadata.revision == s3.reply.meta.revision
            && var s4 := Update(Faultless(s3.entries), p.(metadata := p.metadata.(id := "", revision := "")), d5);
               && s4.reply.err.None?
               && "one" in s4.entries
               && s4.entries["one"].metadata.name == "one"
               && s4.entries["one"].metadata.id == s4.reply.meta.id && s4.reply.meta.id != ""
               && s4.entries["one"].metadata.revision == s4.reply.meta.revision && s4.reply.meta.revision != ""
               && SameContent(s4.entries["one"], p)
  {
    assert Absent(Faultless(map[]), "one");
    var s1 := Create(Faultless(map[]), o, false, now, d1);
    var b1 := Faultless(s1.entries);
    assert Present(b1, "one");
    var u := o.(metadata := o.metadata.(id := s1.reply.meta.id, revision := s1.reply.meta.revision));
    var s2 := Update(b1, u, d2);
    if RandomString(d2.first) == RandomString(d1.second) {
      RandomStringInjective(d2.first, d1.second);
    }
    assert Present(Faultless(s2.entries), "one");
    var s3 := Update(Faultless(s2.entries), o.(metadata := o.metadata.(id := s1.reply.meta.id, revision := "")), d4);
    assert Present(Faultless(s3.entries), "one");
  }
}
