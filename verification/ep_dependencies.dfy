/**
 * Resolution of the EP dependency configuration: every EP lists its own
 * files and the EPs it depends on; after loading, each EP's file list is
 * extended with the files of all EPs it depends on, directly or not. A
 * dependency on an EP that is not configured, or a cycle, makes the
 * resolution fail.
 */
module EpDependencies {
  import opened Utils

  /** One configured EP: its files (name to path) and the names of the EPs it depends on. */
  datatype Entry = Entry(files: map<string, string>, dependencies: set<string>)

  /** `p` follows dependency edges: each element but the last is configured and depends on the next. */
  ghost predicate IsPath(entries: map<string, Entry>, p: seq<string>)
  {
    forall i :: 0 <= i < |p| - 1 ==> p[i] in entries && p[i + 1] in entries[p[i]].dependencies
  }

  /** Paths only look at the dependency sets, so two configurations with the same sets have the same paths. */
  ghost predicate SameDependencies(a: map<string, Entry>, b: map<string, Entry>)
  {
    a.Keys == b.Keys && forall n :: n in a ==> a[n].dependencies == b[n].dependencies
  }

  lemma SamePaths(a: map<string, Entry>, b: map<string, Entry>, p: seq<string>)
    requires SameDependencies(a, b)
    ensures IsPath(a, p) == IsPath(b, p)
  {
  }

  /** The names of all files of the configured EPs among `eps`. */
  ghost function FilesOf(entries: map<string, Entry>, eps: set<string>): set<string>
  {
    set v, f | v in eps && v in entries && f in entries[v].files :: f
  }

  /** Each EP of `finished` is configured and depends only on EPs that finished before it. */
  ghost predicate Ordered(entries: map<string, Entry>, finished: seq<string>)
  {
    forall i :: 0 <= i < |finished| ==>
      (finished[i] in entries && forall d :: d in entries[finished[i]].dependencies ==> d in finished[..i])
  }

  /** An EP whose dependencies have all finished may finish next. */
  lemma OrderedAppend(entries: map<string, Entry>, finished: seq<string>, name: string)
    requires Ordered(entries, finished) && name in entries
    requires forall d :: d in entries[name].dependencies ==> d in finished
    ensures Ordered(entries, finished + [name])
  {
    var f := finished + [name];
    assert f[..|finished|] == finished;
    forall i | 0 <= i < |finished|
      ensures f[..i] == finished[..i]
    {
    }
  }

  /** In a finishing order, a dependency first finishes strictly before the EP that depends on it. */
  lemma DependencyFinishesEarlier(entries: map<string, Entry>, finished: seq<string>, v: string, d: string)
    requires Ordered(entries, finished) && v in finished
    requires d in entries[v].dependencies
    ensures d in finished && FirstIndex(finished, d) < FirstIndex(finished, v)
  {
    var i := FirstIndex(finished, v);
    assert d in finished[..i];
    var j :| 0 <= j < i && finished[j] == d;
  }

  /**
   * Along a dependency path that starts at a finished EP, every EP has
   * finished, and each step goes at least one place back in the finishing
   * order.
   */
  lemma {:induction false} PathDescends(entries: map<string, Entry>, finished: seq<string>, p: seq<string>)
    requires Ordered(entries, finished) && IsPath(entries, p)
    requires |p| >= 1 && p[0] in finished
    ensures forall k :: 0 <= k < |p| ==>
      p[k] in finished && FirstIndex(finished, p[k]) + k <= FirstIndex(finished, p[0])
    decreases |p|
  {
    if |p| > 1 {
      var q := p[..|p| - 1];
      assert IsPath(entries, q);
      PathDescends(entries, finished, q);
      assert q[|p| - 2] == p[|p| - 2];
      DependencyFinishesEarlier(entries, finished, p[|p| - 2], p[|p| - 1]);
      forall k | 0 <= k < |p|
        ensures p[k] in finished && FirstIndex(finished, p[k]) + k <= FirstIndex(finished, p[0])
      {
        if k < |p| - 1 {
          assert p[k] == q[k];
        }
      }
    }
  }

  /** No dependency path from a finished EP leads back to it: resolution never accepts a cycle. */
  lemma FinishedHasNoCycle(entries: map<string, Entry>, finished: seq<string>, p: seq<string>)
    requires Ordered(entries, finished) && IsPath(entries, p)
    requires |p| >= 2 && p[0] in finished
    ensures p[|p| - 1] != p[0]
  {
    PathDescends(entries, finished, p);
  }

  /**
   * The state of one `CollectExtraDependencies` walk: the files gathered so
   * far, the EPs visited, the EPs on the recursion stack and, as a proof
   * device, the order in which visited EPs left the stack.
   */
  class Collection {
    var collected: map<string, string>
    var visited: set<string>
    var recursionStack: set<string>
    ghost var finished: seq<string>

    constructor()
      ensures collected == map[] && visited == {} && recursionStack == {} && finished == []
    {
      collected := map[];
      visited := {};
      recursionStack := {};
      finished := [];
    }

    /**
     * The stack lies within the visited EPs, which are all configured; the
     * visited EPs off the stack are exactly the finished ones, in dependency
     * order; and the gathered file names are those of the visited EPs.
     */
    ghost predicate Valid(entries: map<string, Entry>)
      reads this
    {
      recursionStack <= visited &&
      (forall v :: v in visited ==> v in entries) &&
      (forall v :: v in finished <==> v in visited && v !in recursionStack) &&
      Ordered(entries, finished) &&
      collected.Keys == FilesOf(entries, visited)
    }

    /**
     * `CollectExtraDependencies`: an EP on the stack is a cycle and fails; a
     * visited one succeeds at once and adds nothing; an unconfigured one
     * fails; otherwise its files are gathered and its dependencies walked,
     * the first failure ending the walk.
     */
    method Collect(entries: map<string, Entry>, name: string) returns (ok: bool)
      requires Valid(entries)
      modifies this
      decreases entries.Keys - visited
      ensures name in old(recursionStack) ==> !ok
      ensures name !in old(recursionStack) && name in old(visited) ==>
        ok && collected == old(collected) && visited == old(visited) &&
        recursionStack == old(recursionStack) && finished == old(finished)
      ensures name !in old(recursionStack) && name !in old(visited) && name !in entries ==> !ok
      ensures ok ==> Valid(entries) && name in finished && recursionStack == old(recursionStack)
      ensures ok ==> old(visited) <= visited
    {
      if name in recursionStack {
        return false;
      }
      if name in visited {
        return true;
      }
      if name !in entries {
        return false;
      }
      ghost var stack0, visited0, finished0 := recursionStack, visited, finished;
      recursionStack := recursionStack + {name};
      visited := visited + {name};
      var entry := entries[name];
      // Each file is written under its own name, so the order of the writes does not matter.
      collected := collected + entry.files;
      var pending := entry.dependencies;
      while pending != {}
        invariant Valid(entries)
        invariant recursionStack == stack0 + {name} && name !in stack0
        invariant visited0 + {name} <= visited
        invariant pending <= entry.dependencies
        invariant forall d :: d in entry.dependencies && d !in pending ==> d in finished
        decreases pending
      {
        var dep :| dep in pending;
        if dep in entries {
          var r := Collect(entries, dep);
          if !r {
            return false;
          }
        } else {
          return false;
        }
        pending := pending - {dep};
      }
      recursionStack := recursionStack - {name};
      OrderedAppend(entries, finished, name);
      finished := finished + [name];
      assert recursionStack == stack0;
      ok := true;
    }
  }

  /** The configuration as loaded: later entries of the same name replace earlier ones. */
  function Loaded(base: map<string, Entry>, parsed: seq<(string, Entry)>): (m: map<string, Entry>)
    ensures m.Keys == base.Keys + set i | 0 <= i < |parsed| :: parsed[i].0
  {
    if parsed == [] then base
    else
      var last := parsed[|parsed| - 1];
      var m := Loaded(base, parsed[..|parsed| - 1]);
      assert forall i :: 0 <= i < |parsed| - 1 ==> parsed[..|parsed| - 1][i] == parsed[i];
      m[last.0 := last.1]
  }

  /**
   * What a successful resolution guarantees for EP `n`: every dependency
   * path from it ends at a configured EP whose loaded files are all among
   * `n`'s files, and no such path returns to `n`.
   */
  ghost predicate Resolved(entries: map<string, Entry>, loaded: map<string, Entry>, n: string)
    requires n in entries
  {
    forall p :: IsPath(entries, p) && |p| >= 1 && p[0] == n ==>
      p[|p| - 1] in entries && p[|p| - 1] in loaded &&
      loaded[p[|p| - 1]].files.Keys <= entries[n].files.Keys &&
      (|p| >= 2 ==> p[|p| - 1] != n)
  }

  /** The outcome of a successful walk from `name`, stated over dependency paths. */
  lemma WalkResolves(entries: map<string, Entry>, loaded: map<string, Entry>, c: Collection, name: string)
    requires c.Valid(entries) && c.recursionStack == {} && name in c.finished
    requires SameDependencies(entries, loaded)
    requires forall n :: n in entries ==> loaded[n].files.Keys <= entries[n].files.Keys
    ensures Resolved(entries[name := entries[name].(files := c.collected + entries[name].files)], loaded, name)
  {
    var e' := entries[name := entries[name].(files := c.collected + entries[name].files)];
    assert SameDependencies(entries, e');
    forall p | IsPath(e', p) && |p| >= 1 && p[0] == name
      ensures p[|p| - 1] in e' && p[|p| - 1] in loaded
      ensures loaded[p[|p| - 1]].files.Keys <= e'[name].files.Keys
      ensures |p| >= 2 ==> p[|p| - 1] != name
    {
      SamePaths(entries, e', p);
      PathDescends(entries, c.finished, p);
      var last := p[|p| - 1];
      assert last in c.visited;
      forall f | f in loaded[last].files
        ensures f in e'[name].files
      {
        assert f in entries[last].files;
        assert f in FilesOf(entries, c.visited);
      }
      if |p| >= 2 {
        FinishedHasNoCycle(entries, c.finished, p);
      }
    }
  }

  /** After a successful walk from `name`, adding its gathered files keeps every earlier EP resolved and resolves `name`. */
  lemma WalkStep(entries: map<string, Entry>, loaded: map<string, Entry>, c: Collection, name: string, remaining: set<string>)
    requires c.Valid(entries) && c.recursionStack == {} && name in c.finished && name in remaining
    requires SameDependencies(entries, loaded)
    requires forall n :: n in entries ==> loaded[n].files.Keys <= entries[n].files.Keys
    requires forall n :: n in entries && n !in remaining ==> Resolved(entries, loaded, n)
    ensures var updated := entries[name := entries[name].(files := c.collected + entries[name].files)];
      SameDependencies(updated, loaded) &&
      (forall n :: n in updated ==> loaded[n].files.Keys <= updated[n].files.Keys) &&
      (forall n :: n in updated && n !in remaining - {name} ==> Resolved(updated, loaded, n))
  {
    var updated := entries[name := entries[name].(files := c.collected + entries[name].files)];
    WalkResolves(entries, loaded, c, name);
    forall n | n in entries && n !in remaining
      ensures Resolved(updated, loaded, n)
    {
      ResolvedStable(entries, updated, loaded, n);
    }
  }

  /** Growing file lists and unchanged dependencies keep an EP resolved. */
  lemma ResolvedStable(a: map<string, Entry>, b: map<string, Entry>, loaded: map<string, Entry>, n: string)
    requires n in a && SameDependencies(a, b) && Resolved(a, loaded, n)
    requires a[n].files.Keys <= b[n].files.Keys
    ensures Resolved(b, loaded, n)
  {
    forall p | IsPath(b, p) && |p| >= 1 && p[0] == n
      ensures p[|p| - 1] in b && p[|p| - 1] in loaded
      ensures loaded[p[|p| - 1]].files.Keys <= b[n].files.Keys
      ensures |p| >= 2 ==> p[|p| - 1] != n
    {
      SamePaths(a, b, p);
    }
  }

  /** A resolved EP has every one of its dependencies configured, and none of them is itself. */
  lemma ResolvedDependenciesExist(entries: map<string, Entry>, loaded: map<string, Entry>, n: string, d: string)
    requires n in entries && Resolved(entries, loaded, n)
    requires d in entries[n].dependencies
    ensures d in entries && d != n
  {
    assert IsPath(entries, [n, d]);
  }

  class DependenciesConfig {
    var entries: map<string, Entry>
    var resolved: bool

    constructor()
      ensures entries == map[] && !resolved
    {
      entries := map[];
      resolved := false;
    }

    /**
     * `from_json`: the parsed entries are stored under their names, then
     * each EP in turn gets the files of everything it depends on added to
     * its own (existing names keep their path); the first EP whose walk
     * fails clears `resolved` and ends the processing.
     */
    method FromJson(parsed: seq<(string, Entry)>)
      modifies this
      ensures SameDependencies(entries, Loaded(old(entries), parsed))
      ensures forall n :: n in entries ==> Loaded(old(entries), parsed)[n].files.Keys <= entries[n].files.Keys
      ensures resolved ==> forall n :: n in entries ==> Resolved(entries, Loaded(old(entries), parsed), n)
    {
      LoadEntries(parsed);
      ResolveAll();
    }

    /** The first loop of `from_json`: each parsed entry stored under its EP name. */
    method LoadEntries(parsed: seq<(string, Entry)>)
      modifies this`entries
      ensures entries == Loaded(old(entries), parsed)
    {
      ghost var base := entries;
      for i := 0 to |parsed|
        invariant entries == Loaded(base, parsed[..i])
      {
        assert parsed[..i + 1][..i] == parsed[..i];
        entries := entries[parsed[i].0 := parsed[i].1];
      }
      assert parsed[..|parsed|] == parsed;
    }

    /** The second loop of `from_json`: every EP's walk, stopping at the first failure. */
    method ResolveAll()
      modifies this`entries, this`resolved
      ensures SameDependencies(entries, old(entries))
      ensures forall n :: n in entries ==> old(entries)[n].files.Keys <= entries[n].files.Keys
      ensures resolved ==> forall n :: n in entries ==> Resolved(entries, old(entries), n)
    {
      ghost var loaded := entries;
      resolved := true;
      var remaining := entries.Keys;
      while remaining != {}
        invariant remaining <= entries.Keys
        invariant resolved
        invariant SameDependencies(entries, loaded)
        invariant forall n :: n in entries ==> loaded[n].files.Keys <= entries[n].files.Keys
        invariant forall n :: n in entries && n !in remaining ==> Resolved(entries, loaded, n)
        decreases remaining
      {
        var name :| name in remaining;
        var c := new Collection();
        var ok := c.Collect(entries, name);
        if !ok {
          resolved := false;
          return;
        }
        var updated := entries[name := entries[name].(files := c.collected + entries[name].files)];
        WalkStep(entries, loaded, c, name, remaining);
        entries := updated;
        remaining := remaining - {name};
      }
    }
  }
}
