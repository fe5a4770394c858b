/**
 * The command registry of internal/commands/registry.go: a map from command names to
 * commands, filled once per name, and the usage text that lists every command's usage in
 * the order of the sorted names. Go compares strings byte by byte; on code points this is
 * the same order, which `Below` states.
 */
module Commands {
  import opened Wrappers

  /** A command; `usage` is what its PrintUsage writes. */
  datatype Command = Command(usage: string)

  /** Strict lexicographic order on strings. */
  predicate Below(a: string, b: string)
    decreases |a|
  {
    if a == [] then b != []
    else b != [] && (a[0] < b[0] || (a[0] == b[0] && Below(a[1..], b[1..])))
  }

  lemma {:induction false} BelowIrreflexive(a: string)
    ensures !Below(a, a)
    decreases |a|
  {
    if a != [] {
      BelowIrreflexive(a[1..]);
    }
  }

  lemma {:induction false} BelowTransitive(a: string, b: string, c: string)
    requires Below(a, b) && Below(b, c)
    ensures Below(a, c)
    decreases |a|
  {
    if a != [] && a[0] == b[0] && b[0] == c[0] {
      BelowTransitive(a[1..], b[1..], c[1..]);
    }
  }

  lemma {:induction false} BelowTotal(a: string, b: string)
    requires a != b
    ensures Below(a, b) || Below(b, a)
    decreases |a|
  {
    if a != [] && b != [] && a[0] == b[0] {
      assert a == [a[0]] + a[1..] && b == [b[0]] + b[1..];
      BelowTotal(a[1..], b[1..]);
    }
  }

  lemma BelowAsymmetric(a: string, b: string)
    requires Below(a, b)
    ensures !Below(b, a)
  {
  }

  /** "Not below" (at least) is transitive as well, since the order is total. */
  lemma NotBelowTransitive(a: string, b: string, c: string)
    requires !Below(a, b) && !Below(b, c)
    ensures !Below(a, c)
  {
  }

  /** In order, equal neighbours allowed (what `slices.Sort` produces). */
  predicate Sorted(s: seq<string>) {
    forall i, j :: 0 <= i < j < |s| ==> !Below(s[j], s[i])
  }

  /** In strictly increasing order, hence without repetition. */
  predicate StrictlySorted(s: seq<string>) {
    forall i, j :: 0 <= i < j < |s| ==> Below(s[i], s[j])
  }

  function Insert(x: string, s: seq<string>): (r: seq<string>)
    decreases |s|
  {
    if s == [] then [x]
    else if Below(s[0], x) then [s[0]] + Insert(x, s[1..])
    else [x] + s
  }

  lemma {:induction false} InsertSorted(x: string, s: seq<string>)
    requires Sorted(s)
    ensures Sorted(Insert(x, s)) && multiset(Insert(x, s)) == multiset(s) + multiset{x}
    decreases |s|
  {
    if s == [] {
    } else if Below(s[0], x) {
      var t := Insert(x, s[1..]);
      InsertSorted(x, s[1..]);
      assert s == [s[0]] + s[1..];
      BelowAsymmetric(s[0], x);
      forall j | 0 <= j < |t|
        ensures !Below(t[j], s[0])
      {
        assert t[j] in multiset(t);
        if t[j] != x {
          assert t[j] in multiset(s[1..]);
          var k :| 0 <= k < |s[1..]| && s[1..][k] == t[j];
          assert s[k + 1] == t[j];
        }
      }
    } else {
      forall j | 0 < j < |s|
        ensures !Below(s[j], x)
      {
        NotBelowTransitive(s[j], s[0], x);
      }
    }
  }

  /** `slices.Sort` on a slice of strings, as an insertion sort. */
  function Sort(s: seq<string>): (r: seq<string>)
    ensures Sorted(r) && multiset(r) == multiset(s)
    decreases |s|
  {
    if s == [] then []
    else
      var t := Sort(s[1..]);
      InsertSorted(s[0], t);
      assert s == [s[0]] + s[1..];
      assert multiset(s) == multiset(s[1..]) + multiset{s[0]};
      Insert(s[0], t)
  }

  /** A sorted sequence that holds no value twice is strictly sorted. */
  lemma SortedOnceStrict(s: seq<string>)
    requires Sorted(s)
    requires forall x :: multiset(s)[x] <= 1
    ensures StrictlySorted(s)
  {
    forall i, j | 0 <= i < j < |s|
      ensures Below(s[i], s[j])
    {
      assert s == s[..j] + [s[j]] + s[j + 1..];
      assert multiset(s)[s[j]] == multiset(s[..j])[s[j]] + 1 + multiset(s[j + 1..])[s[j]];
      assert s[i] in multiset(s[..j]);
      assert s[i] != s[j];
      BelowTotal(s[i], s[j]);
    }
  }

  /** Adding `y` to a set whose least element is `m`: the least is the smaller of the two. */
  lemma LeastWithOneMore(y: string, rest: set<string>, m: string)
    requires m in rest && forall x :: x in rest ==> !Below(x, m)
    ensures forall x :: x in rest + {y} ==> !Below(x, if Below(y, m) then y else m)
  {
    BelowIrreflexive(y);
    forall x | x in rest + {y}
      ensures !Below(x, if Below(y, m) then y else m)
    {
      if Below(y, m) && x != y && Below(x, y) {
        BelowTransitive(x, y, m);
      }
    }
  }

  /** Every non-empty set of strings has a least element. */
  lemma {:induction false} LeastExists(k: set<string>)
    requires k != {}
    ensures exists m :: m in k && forall x :: x in k ==> !Below(x, m)
    decreases |k|
  {
    var y :| y in k;
    var rest := k - {y};
    assert k == rest + {y};
    if rest == {} {
      BelowIrreflexive(y);
      assert forall x :: x in k ==> x == y;
    } else {
      LeastExists(rest);
      var m :| m in rest && forall x :: x in rest ==> !Below(x, m);
      LeastWithOneMore(y, rest, m);
      var w := if Below(y, m) then y else m;
      assert w in k;
    }
  }

  /** The least element of a non-empty set of strings. */
  ghost function Least(k: set<string>): (m: string)
    requires k != {}
    ensures m in k && forall x :: x in k ==> !Below(x, m)
  {
    LeastExists(k);
    var m :| m in k && forall x :: x in k ==> !Below(x, m);
    m
  }

  /** The names of a set in increasing order: the reference for the usage listing. */
  ghost function SortedKeys(k: set<string>): seq<string>
    decreases |k|
  {
    if k == {} then [] else [Least(k)] + SortedKeys(k - {Least(k)})
  }

  lemma {:induction false} SortedKeysSpec(k: set<string>)
    ensures StrictlySorted(SortedKeys(k))
    ensures forall x :: x in SortedKeys(k) <==> x in k
    ensures |SortedKeys(k)| == |k|
    decreases |k|
  {
    if k != {} {
      var m := Least(k);
      var rest := SortedKeys(k - {m});
      SortedKeysSpec(k - {m});
      assert SortedKeys(k) == [m] + rest;
      forall j | 0 <= j < |rest|
        ensures Below(m, rest[j])
      {
        assert rest[j] in k - {m};
        BelowTotal(m, rest[j]);
      }
    }
  }

  lemma HeadIsMember(s: seq<string>)
    requires s != []
    ensures s[0] in s
  {
  }

  /** Two strictly sorted sequences with the same elements are the same sequence. */
  lemma {:induction false} StrictlySortedUnique(a: seq<string>, b: seq<string>)
    requires StrictlySorted(a) && StrictlySorted(b)
    requires forall x :: x in a <==> x in b
    ensures a == b
    decreases |a|
  {
    if a == [] {
      if b != [] {
        HeadIsMember(b);
        assert false;
      }
    } else {
      assert a[0] in a;
      var j :| 0 <= j < |b| && b[j] == a[0];
      assert b[0] in b;
      var i :| 0 <= i < |a| && a[i] == b[0];
      if i > 0 && j > 0 {
        BelowAsymmetric(a[0], b[0]);
      }
      assert a[0] == b[0];
      forall x
        ensures x in a[1..] <==> x in b[1..]
      {
        if x in a[1..] {
          var p :| 0 <= p < |a[1..]| && a[1..][p] == x;
          assert a[p + 1] == x;
          BelowIrreflexive(a[0]);
          assert x in b;
          assert x != b[0];
        }
        if x in b[1..] {
          var p :| 0 <= p < |b[1..]| && b[1..][p] == x;
          assert b[p + 1] == x;
          BelowIrreflexive(b[0]);
          assert x in a;
          assert x != a[0];
        }
      }
      StrictlySortedUnique(a[1..], b[1..]);
      assert a == [a[0]] + a[1..] && b == [b[0]] + b[1..];
    }
  }

  /** Sorting the names, gathered once each in any order, gives the reference listing. */
  lemma SortedListing(k: set<string>, names: seq<string>)
    requires forall x :: multiset(names)[x] == if x in k then 1 else 0
    ensures Sort(names) == SortedKeys(k)
  {
    var sorted := Sort(names);
    SortedOnceStrict(sorted);
    SortedKeysSpec(k);
    forall x
      ensures x in sorted <==> x in SortedKeys(k)
    {
      assert x in sorted <==> x in multiset(sorted);
    }
    StrictlySortedUnique(sorted, SortedKeys(k));
  }

  /** The usages of the named commands, one after the other. */
  function Usages(commands: map<string, Command>, names: seq<string>): string
    requires forall i :: 0 <= i < |names| ==> names[i] in commands
    decreases |names|
  {
    if names == [] then ""
    else Usages(commands, names[..|names| - 1]) + commands[names[|names| - 1]].usage
  }

  /** The package-level `registry` map. */
  class Registry {
    var commands: map<string, Command>

    constructor ()
      ensures commands == map[]
    {
      commands := map[];
    }

    /**
     * `Register(name, command)`. A second registration of a name is an internal error:
     * the process exits with status 2 (the returned code) and the registry is unchanged.
     */
    method Register(name: string, command: Command) returns (exit: Option<int>)
      modifies this
      ensures name in old(commands) ==> exit == Some(2) && commands == old(commands)
      ensures name !in old(commands) ==> exit.None? && commands == old(commands)[name := command]
      ensures exit.None? ==> Get(name) == Some(command)
    {
      if name in commands {
        return Some(2);
      }
      commands := commands[name := command];
      return None;
    }

    /** `Get(name)`: the registered command, or nil. */
    function Get(name: string): (r: Option<Command>)
      reads this
      ensures r.Some? <==> name in commands
      ensures r.Some? ==> r.value == commands[name]
    {
      if name in commands then Some(commands[name]) else None
    }

    /** The names of the registry, in the map's iteration order: each name exactly once. */
    method Names() returns (keys: seq<string>)
      ensures forall x :: multiset(keys)[x] == if x in commands then 1 else 0
    {
      keys := [];
      var rest := commands.Keys;
      while rest != {}
        invariant rest <= commands.Keys
        invariant forall x :: multiset(keys)[x] == if x in commands && x !in rest then 1 else 0
        decreases rest
      {
        var name :| name in rest;
        keys := keys + [name];
        rest := rest - {name};
      }
    }

    /**
     * `PrintUsage(w)`: the text written to `w`, "Usage:\n" followed by the usage of every
     * registered command in increasing order of the names, each exactly once.
     */
    method PrintUsage() returns (output: string)
      ensures forall i :: 0 <= i < |SortedKeys(commands.Keys)| ==> SortedKeys(commands.Keys)[i] in commands
      ensures output == "Usage:\n" + Usages(commands, SortedKeys(commands.Keys))
    {
      var keys := Names();
      SortedListing(commands.Keys, keys);
      ListingNamesRegistered(commands);
      output := WriteUsages(Sort(keys));
    }

    /** "Usage:\n" and then the usages of `names`, in their order: the loop of `PrintUsage`. */
    method WriteUsages(names: seq<string>) returns (output: string)
      requires forall i :: 0 <= i < |names| ==> names[i] in commands
      ensures output == "Usage:\n" + Usages(commands, names)
    {
      output := "Usage:\n";
      for i := 0 to |names|
        invariant output == "Usage:\n" + Usages(commands, names[..i])
      {
        assert names[..i + 1][..i] == names[..i];
        output := output + commands[names[i]].usage;
      }
      assert names[..|names|] == names;
    }
  }

  /** Every name of the listing is registered, so each has a usage to print. */
  lemma ListingNamesRegistered(commands: map<string, Command>)
    ensures forall i :: 0 <= i < |SortedKeys(commands.Keys)| ==> SortedKeys(commands.Keys)[i] in commands
  {
    SortedKeysSpec(commands.Keys);
  }

  /**
   * The usage listing names every registered command, each exactly once, in strictly
   * increasing order.
   */
  lemma UsageListsEachCommandOnce(commands: map<string, Command>)
    ensures var names := SortedKeys(commands.Keys);
      && (forall x :: x in names <==> x in commands)
      && (forall i, j :: 0 <= i < j < |names| ==> names[i] != names[j])
      && (forall i, j :: 0 <= i < j < |names| ==> Below(names[i], names[j]))
  {
    SortedKeysSpec(commands.Keys);
    var names := SortedKeys(commands.Keys);
    forall i, j | 0 <= i < j < |names|
      ensures names[i] != names[j]
    {
      BelowIrreflexive(names[i]);
    }
  }
}
