/** The check that packaged DLLs close all imports of the package's entry points. */
module PeClosure {
  import opened Results

  /** A file to be packaged: its name and the names it imports. */
  datatype File = File(name: string, imports: seq<string>)

  /** How names are compared, and which of them the operating system provides. */
  datatype Platform = Platform(fold: string -> string, system: string -> bool)

  datatype Result =
    | NoRoots
    | DuplicateName(name: string)
    | Unresolved(missing: map<string, set<string>>)
    | Unreachable(unused: set<string>)
    | Closed(names: seq<string>)

  type Package = map<string, File>

  // ---------- The order of names ----------

  /** Strings compare by their first different character, and a prefix comes first. */
  predicate Before(a: string, b: string) {
    if b == [] then false
    else if a == [] then true
    else a[0] < b[0] || (a[0] == b[0] && Before(a[1..], b[1..]))
  }

  /** One string is before another exactly if it is a proper prefix, or has the smaller first difference. */
  lemma {:induction false} BeforeIs(a: string, b: string)
    ensures Before(a, b) <==> exists k :: Differ(a, b, k)
    decreases |a|
  {
    forall k | Differ(a, b, k) && k > 0
      ensures a[0] == b[0]
    {
      DifferLater(a, b, k);
    }
    if a != [] && b != [] && a[0] == b[0] {
      BeforeIs(a[1..], b[1..]);
      if k :| Differ(a[1..], b[1..], k) {
        assert a[..k + 1] == [a[0]] + a[1..][..k] && b[..k + 1] == [b[0]] + b[1..][..k];
        assert Differ(a, b, k + 1);
      }
      if k :| Differ(a, b, k) {
        assert k > 0 && a[1..][..k - 1] == a[..k][1..] && b[1..][..k - 1] == b[..k][1..];
        assert Differ(a[1..], b[1..], k - 1);
      }
    } else if Before(a, b) {
      assert Differ(a, b, 0);
    }
  }

  lemma DifferLater(a: string, b: string, k: int)
    requires Differ(a, b, k) && k > 0
    ensures a != [] && b != [] && a[0] == b[0]
  {
    assert a[..k][0] == b[..k][0];
  }

  /** They agree up to a place at which the first ends, or has the smaller character. */
  predicate Differ(a: string, b: string, k: int) {
    && 0 <= k <= |a| && k < |b| && a[..k] == b[..k]
    && (k == |a| || a[k] < b[k])
  }

  predicate Ascending(names: seq<string>) {
    forall i, j :: 0 <= i < j < |names| ==> Before(names[i], names[j])
  }

  lemma {:induction false} BeforeTotal(a: string, b: string)
    ensures a == b || Before(a, b) || Before(b, a)
    decreases |a|
  {
    if a != [] && b != [] && a[0] == b[0] {
      BeforeTotal(a[1..], b[1..]);
      assert a == [a[0]] + a[1..] && b == [b[0]] + b[1..];
    }
  }

  lemma {:induction false} BeforeTransitive(a: string, b: string, c: string)
    requires Before(a, b) && Before(b, c)
    ensures Before(a, c)
    decreases |a|
  {
    if a != [] && a[0] == b[0] == c[0] {
      BeforeTransitive(a[1..], b[1..], c[1..]);
    }
  }

  predicate IsFirst(names: set<string>, name: string) {
    name in names && forall other :: other in names && other != name ==> Before(name, other)
  }

  lemma {:induction false} FirstExists(names: set<string>)
    requires names != {}
    ensures exists name :: IsFirst(names, name)
    decreases names
  {
    var some :| some in names;
    if names == {some} {
      assert IsFirst(names, some);
    } else {
      var rest := names - {some};
      FirstExists(rest);
      var first :| IsFirst(rest, first);
      BeforeTotal(some, first);
      if Before(first, some) {
        assert IsFirst(names, first);
      } else {
        forall other | other in names && other != some
          ensures Before(some, other)
        {
          if other != first {
            BeforeTransitive(some, first, other);
          }
        }
        assert IsFirst(names, some);
      }
    }
  }

  method Sorted(names: set<string>) returns (r: seq<string>)
    ensures Ascending(r) && forall name :: name in r <==> name in names
  {
    r := [];
    var rest := names;
    while rest != {}
      invariant rest <= names && Ascending(r)
      invariant forall name :: name in names <==> name in r || name in rest
      invariant forall k, name :: 0 <= k < |r| && name in rest ==> Before(r[k], name)
      decreases rest
    {
      FirstExists(rest);
      var first :| IsFirst(rest, first);
      r := r + [first];
      rest := rest - {first};
    }
  }

  // ---------- What is promised ----------

  /** Two files have names that compare equal. */
  predicate Collide(p: Platform, files: seq<File>) {
    exists i, j :: 0 <= i < j < |files| && p.fold(files[i].name) == p.fold(files[j].name)
  }

  /** The first name that collides with an earlier one. */
  predicate FirstDuplicate(p: Platform, files: seq<File>, name: string) {
    exists k :: 0 <= k < |files| && files[k].name == name && FirstCollision(p, files, k)
  }

  predicate FirstCollision(p: Platform, files: seq<File>, k: nat)
    requires k < |files|
  {
    !Collide(p, files[..k]) && Collide(p, files[..k + 1])
  }

  /** The package maps folded names to exactly the given files. */
  ghost predicate Holds(p: Platform, package: Package, files: seq<File>) {
    && (forall k :: 0 <= k < |files| ==> p.fold(files[k].name) in package)
    && (forall name :: name in package ==> package[name] in files && p.fold(package[name].name) == name)
  }

  /** A packaged file imports another. */
  predicate Links(p: Platform, package: Package, a: string, b: string) {
    && a in package && b in package
    && exists k :: 0 <= k < |package[a].imports| && p.fold(package[a].imports[k]) == b
  }

  predicate IsRoot(p: Platform, roots: seq<File>, name: string) {
    exists k :: 0 <= k < |roots| && p.fold(roots[k].name) == name
  }

  /** A chain of imports from a root. */
  ghost predicate Chain(p: Platform, package: Package, roots: seq<File>, path: seq<string>) {
    && path != [] && IsRoot(p, roots, path[0])
    && forall k :: 0 <= k < |path| - 1 ==> Links(p, package, path[k], path[k + 1])
  }

  ghost predicate Reachable(p: Platform, package: Package, roots: seq<File>, name: string) {
    exists path :: Chain(p, package, roots, path) && path[|path| - 1] == name
  }

  /** A file imports a name that is neither packaged nor the system's. */
  predicate Missing(p: Platform, package: Package, importer: string, imported: string) {
    importer in package && imported in package[importer].imports
    && p.fold(imported) !in package && !p.system(imported)
  }

  predicate Blamed(missing: map<string, set<string>>, imported: string, name: string) {
    imported in missing && name in missing[imported]
  }

  /** A reachable file of that very name imports something nobody provides. */
  ghost predicate Blame(p: Platform, package: Package, roots: seq<File>, imported: string, name: string) {
    var key := p.fold(name);
    Missing(p, package, key, imported) && package[key].name == name && Reachable(p, package, roots, key)
  }

  ghost predicate AllProvided(p: Platform, package: Package, roots: seq<File>) {
    forall key, imported :: Reachable(p, package, roots, key) ==> !Missing(p, package, key, imported)
  }

  ghost predicate Unused(p: Platform, package: Package, roots: seq<File>, dependencies: seq<File>, name: string) {
    !Reachable(p, package, roots, p.fold(name)) && exists k :: 0 <= k < |dependencies| && dependencies[k].name == name
  }

  /** The keys of everything reachable, in order and each once. */
  ghost predicate ListsReachable(p: Platform, package: Package, roots: seq<File>, keys: seq<string>) {
    && Ascending(keys)
    && (forall key :: key in keys <==> Reachable(p, package, roots, key))
    && forall key :: key in keys ==> key in package
  }

  function NamesOf(package: Package, keys: seq<string>): seq<string>
    requires forall key :: key in keys ==> key in package
  {
    seq(|keys|, k requires 0 <= k < |keys| => package[keys[k]].name)
  }

  /** What the answer says about a package of files with distinct names. */
  ghost predicate Judged(p: Platform, package: Package, roots: seq<File>, dependencies: seq<File>, r: Result) {
    match r
    case Unresolved(missing) =>
      && !AllProvided(p, package, roots)
      && forall imported, name :: Blamed(missing, imported, name) <==> Blame(p, package, roots, imported, name)
    case Unreachable(unused) =>
      && AllProvided(p, package, roots) && unused != {}
      && forall name :: name in unused <==> Unused(p, package, roots, dependencies, name)
    case Closed(names) =>
      && AllProvided(p, package, roots)
      && (forall name :: !Unused(p, package, roots, dependencies, name))
      && exists keys :: ListsReachable(p, package, roots, keys) && names == NamesOf(package, keys)
    case _ => false
  }

  /** The check passes exactly when nothing reachable misses an import and no dependency is unused. */
  lemma PassesIff(p: Platform, package: Package, roots: seq<File>, dependencies: seq<File>, r: Result)
    requires Judged(p, package, roots, dependencies, r)
    ensures r.Closed? <==>
              AllProvided(p, package, roots) && forall name :: !Unused(p, package, roots, dependencies, name)
  {
    if r.Unreachable? {
      var name :| name in r.unused;
      assert Unused(p, package, roots, dependencies, name);
    }
  }

  // ---------- Reachability ----------

  lemma RootReachable(p: Platform, package: Package, roots: seq<File>, name: string)
    requires IsRoot(p, roots, name)
    ensures Reachable(p, package, roots, name)
  {
    assert Chain(p, package, roots, [name]);
  }

  lemma LinkReachable(p: Platform, package: Package, roots: seq<File>, a: string, b: string)
    requires Reachable(p, package, roots, a) && Links(p, package, a, b)
    ensures Reachable(p, package, roots, b)
  {
    var path :| Chain(p, package, roots, path) && path[|path| - 1] == a;
    assert Chain(p, package, roots, path + [b]);
  }

  /** A set that holds the roots and whatever its members import holds everything reachable. */
  lemma {:induction false} ClosedHoldsChain(p: Platform, package: Package, roots: seq<File>, closed: set<string>,
                                            path: seq<string>)
    requires Chain(p, package, roots, path)
    requires forall name :: IsRoot(p, roots, name) ==> name in closed
    requires forall a, b :: a in closed && Links(p, package, a, b) ==> b in closed
    ensures path[|path| - 1] in closed
  {
    var n := |path| - 1;
    if n != 0 {
      assert Links(p, package, path[n - 1], path[n]);
      ClosedHoldsChain(p, package, roots, closed, path[..n]);
    }
  }

  // ---------- The worklist ----------

  /** The places still to be visited and those visited hold the roots and all imports of the visited. */
  ghost predicate Frontier(p: Platform, package: Package, roots: seq<File>, queue: seq<string>,
                           reachable: set<string>) {
    && (forall name :: name in queue || name in reachable ==> name in package && Reachable(p, package, roots, name))
    && (forall name :: IsRoot(p, roots, name) ==> name in queue || name in reachable)
    && (forall a, b :: a in reachable && Links(p, package, a, b) ==> b in queue || b in reachable)
  }

  /** The entries recorded are those of the visited files. */
  ghost predicate Recorded(p: Platform, package: Package, visited: set<string>, missing: map<string, set<string>>) {
    && (forall imported, name :: Blamed(missing, imported, name) <==> Noted(p, package, visited, imported, name))
    && (forall imported :: imported in missing ==> missing[imported] != {})
  }

  predicate Noted(p: Platform, package: Package, visited: set<string>, imported: string, name: string) {
    var key := p.fold(name);
    key in visited && Missing(p, package, key, imported) && package[key].name == name
  }

  function WithBlame(missing: map<string, set<string>>, imported: string, name: string): map<string, set<string>> {
    missing[imported := (if imported in missing then missing[imported] else {}) + {name}]
  }

  /** Visiting the imports of one file: the packaged ones are queued, the others must be the system's. */
  method Visit(p: Platform, package: Package, current: string, queue: seq<string>, missing: map<string, set<string>>)
    returns (longer: seq<string>, recorded: map<string, set<string>>)
    requires current in package
    requires forall imported :: imported in missing ==> missing[imported] != {}
    ensures forall name :: name in longer <==> name in queue || Links(p, package, current, name)
    ensures forall imported, name :: Blamed(recorded, imported, name) <==>
              || Blamed(missing, imported, name)
              || (Missing(p, package, current, imported) && package[current].name == name)
    ensures forall imported :: imported in recorded ==> recorded[imported] != {}
  {
    longer, recorded := queue, missing;
    var file := package[current];
    for k := 0 to |file.imports|
      invariant forall name :: name in longer <==> name in queue || LinksBefore(p, package, current, name, k)
      invariant forall imported, name :: Blamed(recorded, imported, name) <==>
                  || Blamed(missing, imported, name)
                  || (MissingBefore(p, package, current, imported, k) && file.name == name)
      invariant forall imported :: imported in recorded ==> recorded[imported] != {}
    {
      hide LinksBefore, MissingBefore, Blamed, WithBlame;
      OneImport(p, package, current, k);
      var imported := file.imports[k];
      if p.fold(imported) in package {
        longer := longer + [p.fold(imported)];
      } else if !p.system(imported) {
        BlameAdded(recorded, imported, file.name);
        recorded := WithBlame(recorded, imported, file.name);
      }
    }
  }

  lemma BlameAdded(missing: map<string, set<string>>, imported: string, name: string)
    ensures forall i, n :: Blamed(WithBlame(missing, imported, name), i, n) <==>
              Blamed(missing, i, n) || (i == imported && n == name)
    ensures forall i :: i in WithBlame(missing, imported, name) && (i in missing ==> missing[i] != {}) ==>
              WithBlame(missing, imported, name)[i] != {}
  {
    var after := WithBlame(missing, imported, name);
    assert name in after[imported];
  }

  /** What one more import adds. */
  lemma OneImport(p: Platform, package: Package, current: string, k: nat)
    requires current in package && k < |package[current].imports|
    ensures var imported := package[current].imports[k];
            && (forall name :: LinksBefore(p, package, current, name, k + 1) <==>
                  LinksBefore(p, package, current, name, k) || (p.fold(imported) == name && name in package))
            && (forall i :: MissingBefore(p, package, current, i, k + 1) <==>
                  MissingBefore(p, package, current, i, k)
                  || (i == imported && p.fold(i) !in package && !p.system(i)))
  {
    var imports := package[current].imports;
    assert imports[..k + 1] == imports[..k] + [imports[k]];
  }

  /** As `Links` and `Missing`, but only by the first imports of the file. */
  predicate LinksBefore(p: Platform, package: Package, a: string, b: string, limit: nat)
    requires a in package && limit <= |package[a].imports|
  {
    b in package && exists k :: 0 <= k < limit && p.fold(package[a].imports[k]) == b
  }

  predicate MissingBefore(p: Platform, package: Package, importer: string, imported: string, limit: nat)
    requires importer in package && limit <= |package[importer].imports|
  {
    imported in package[importer].imports[..limit] && p.fold(imported) !in package && !p.system(imported)
  }

  method Explore(p: Platform, package: Package, roots: seq<File>)
    returns (reachable: set<string>, missing: map<string, set<string>>)
    requires Keyed(p, package)
    requires forall name :: IsRoot(p, roots, name) ==> name in package
    ensures forall name :: name in reachable <==> Reachable(p, package, roots, name)
    ensures reachable <= package.Keys && Recorded(p, package, reachable, missing)
  {
    hide Links, Missing, Reachable, Blamed, Noted, IsRoot;
    var queue := seq(|roots|, k requires 0 <= k < |roots| => p.fold(roots[k].name));
    reachable, missing := {}, map[];
    FrontierAtRoots(p, package, roots, queue);
    RecordedNothing(p, package);
    while queue != []
      invariant Frontier(p, package, roots, queue, reachable)
      invariant Recorded(p, package, reachable, missing)
      invariant reachable <= package.Keys
      decreases package.Keys - reachable, |queue|
    {
      var current := queue[0];
      assert queue == [current] + queue[1..];
      queue := queue[1..];
      if current in reachable {
        continue;
      }
      ghost var before, recorded := queue, missing;
      queue, missing := Visit(p, package, current, queue, missing);
      Visited(p, package, roots, current, before, reachable, queue);
      RecordedStep(p, package, reachable, current, recorded, missing);
      reachable := reachable + {current};
    }
    forall name | Reachable(p, package, roots, name)
      ensures name in reachable
    {
      ReachableHeld(p, package, roots, reachable, name);
    }
  }

  lemma FrontierAtRoots(p: Platform, package: Package, roots: seq<File>, queue: seq<string>)
    requires |queue| == |roots| && forall k :: 0 <= k < |roots| ==> queue[k] == p.fold(roots[k].name)
    requires forall name :: IsRoot(p, roots, name) ==> name in package
    ensures Frontier(p, package, roots, queue, {})
  {
    forall name
      ensures name in queue <==> IsRoot(p, roots, name)
      ensures IsRoot(p, roots, name) ==> Reachable(p, package, roots, name)
    {
      if IsRoot(p, roots, name) {
        var k :| 0 <= k < |roots| && p.fold(roots[k].name) == name;
        assert queue[k] == name;
        RootReachable(p, package, roots, name);
      }
    }
  }

  lemma RecordedNothing(p: Platform, package: Package)
    ensures Recorded(p, package, {}, map[])
  {
  }

  lemma RecordedStep(p: Platform, package: Package, visited: set<string>, current: string,
                     before: map<string, set<string>>, after: map<string, set<string>>)
    requires Keyed(p, package) && current in package && Recorded(p, package, visited, before)
    requires forall imported, name :: Blamed(after, imported, name) <==>
               || Blamed(before, imported, name)
               || (Missing(p, package, current, imported) && package[current].name == name)
    requires forall imported :: imported in after ==> after[imported] != {}
    ensures Recorded(p, package, visited + {current}, after)
  {
    forall imported, name
      ensures Blamed(after, imported, name) <==> Noted(p, package, visited + {current}, imported, name)
    {
      assert Blamed(before, imported, name) <==> Noted(p, package, visited, imported, name);
    }
  }

  lemma ReachableHeld(p: Platform, package: Package, roots: seq<File>, reachable: set<string>, name: string)
    requires Frontier(p, package, roots, [], reachable) && Reachable(p, package, roots, name)
    ensures name in reachable
  {
    var path :| Chain(p, package, roots, path) && path[|path| - 1] == name;
    ClosedHoldsChain(p, package, roots, reachable, path);
  }

  predicate Keyed(p: Platform, package: Package) {
    forall name :: name in package ==> p.fold(package[name].name) == name
  }

  lemma Visited(p: Platform, package: Package, roots: seq<File>, current: string, before: seq<string>,
                reachable: set<string>, queue: seq<string>)
    requires Frontier(p, package, roots, [current] + before, reachable)
    requires forall name :: name in queue <==> name in before || Links(p, package, current, name)
    ensures Frontier(p, package, roots, queue, reachable + {current})
  {
    assert current in [current] + before;
    forall name | name in queue
      ensures name in package && Reachable(p, package, roots, name)
    {
      if Links(p, package, current, name) {
        LinkReachable(p, package, roots, current, name);
      } else {
        assert name in [current] + before;
      }
    }
  }

  // ---------- The whole check ----------

  /** The dictionary of files, or the first name that was already taken. */
  method Collect(p: Platform, files: seq<File>) returns (package: Package, duplicate: Option<string>)
    ensures duplicate == None <==> !Collide(p, files)
    ensures duplicate == None ==> Holds(p, package, files)
    ensures duplicate.Some? ==> FirstDuplicate(p, files, duplicate.value)
  {
    package, duplicate := map[], None;
    for k := 0 to |files|
      invariant !Collide(p, files[..k])
      invariant Holds(p, package, files[..k])
    {
      var folded := p.fold(files[k].name);
      if folded in package {
        var other :| 0 <= other < k && files[other] == package[folded];
        assert files[..k + 1][other] == files[other] && files[..k + 1][k] == files[k];
        assert Collide(p, files[..k + 1]) && FirstCollision(p, files, k);
        return package, Some(files[k].name);
      }
      package := package[folded := files[k]];
      HoldsOneMore(p, files, k);
    }
    assert files[..|files|] == files;
  }

  lemma HoldsOneMore(p: Platform, files: seq<File>, k: nat)
    requires k < |files| && !Collide(p, files[..k])
    requires forall j :: 0 <= j < k ==> p.fold(files[j].name) != p.fold(files[k].name)
    ensures !Collide(p, files[..k + 1])
  {
    assert forall j :: 0 <= j < k ==> files[..k][j] == files[..k + 1][j];
  }

  method Assess(p: Platform, package: Package, roots: seq<File>, dependencies: seq<File>) returns (r: Result)
    requires Keyed(p, package) && forall name :: IsRoot(p, roots, name) ==> name in package
    ensures Judged(p, package, roots, dependencies, r)
  {
    hide Reachable, Unused, AllProvided, Blamed, Blame, Missing, Links, IsRoot, Keyed, Ascending, Noted;
    var reachable, missing := Explore(p, package, roots);
    var unused := set d | d in dependencies && p.fold(d.name) !in reachable :: d.name;
    Judgement(p, package, roots, dependencies, reachable, missing);
    UnusedNames(p, package, roots, dependencies, reachable, unused);
    if missing != map[] {
      return Unresolved(missing);
    }
    if unused != {} {
      return Unreachable(unused);
    }
    var keys := Sorted(reachable);
    assert ListsReachable(p, package, roots, keys);
    return Closed(NamesOf(package, keys));
  }

  method VerifyClosure(p: Platform, roots: seq<File>, dependencies: seq<File>) returns (r: Result)
    ensures r == NoRoots <==> roots == []
    ensures r.DuplicateName? <==> roots != [] && Collide(p, roots + dependencies)
    ensures r.DuplicateName? ==> FirstDuplicate(p, roots + dependencies, r.name)
    ensures roots != [] && !Collide(p, roots + dependencies) ==>
              exists package :: Holds(p, package, roots + dependencies) && Judged(p, package, roots, dependencies, r)
  {
    if roots == [] {
      return NoRoots;
    }
    hide Reachable, Unused, AllProvided, Blame, Missing, Collide, FirstDuplicate;
    var package, duplicate := Collect(p, roots + dependencies);
    if duplicate.Some? {
      return DuplicateName(duplicate.value);
    }
    RootsPackaged(p, package, roots, dependencies);
    r := Assess(p, package, roots, dependencies);
  }

  lemma RootsPackaged(p: Platform, package: Package, roots: seq<File>, dependencies: seq<File>)
    requires Holds(p, package, roots + dependencies)
    ensures forall name :: IsRoot(p, roots, name) ==> name in package
  {
    forall name | IsRoot(p, roots, name)
      ensures name in package
    {
      var k :| 0 <= k < |roots| && p.fold(roots[k].name) == name;
      assert (roots + dependencies)[k] == roots[k];
    }
  }

  /** What the records of an exploration say about everything reachable. */
  lemma Judgement(p: Platform, package: Package, roots: seq<File>, dependencies: seq<File>,
                  reachable: set<string>, missing: map<string, set<string>>)
    requires Keyed(p, package) && Recorded(p, package, reachable, missing)
    requires forall name :: name in reachable <==> Reachable(p, package, roots, name)
    ensures missing == map[] <==> AllProvided(p, package, roots)
    ensures forall imported, name :: Blamed(missing, imported, name) <==> Blame(p, package, roots, imported, name)
  {
    hide Reachable, Missing;
    forall imported, name
      ensures Blamed(missing, imported, name) <==> Blame(p, package, roots, imported, name)
    {
      assert Blamed(missing, imported, name) <==> Noted(p, package, reachable, imported, name);
    }
    if missing != map[] {
      var imported :| imported in missing;
      var name :| name in missing[imported];
      assert Blamed(missing, imported, name);
      assert Missing(p, package, p.fold(name), imported);
    } else {
      forall key, imported | Reachable(p, package, roots, key) && key in package
        ensures !Missing(p, package, key, imported)
      {
        assert !Blamed(missing, imported, package[key].name);
        assert !Blame(p, package, roots, imported, package[key].name);
      }
      OnlyPackagedMiss(p, package);
    }
  }

  lemma OnlyPackagedMiss(p: Platform, package: Package)
    ensures forall key, imported :: Missing(p, package, key, imported) ==> key in package
  {
  }

  lemma UnusedNames(p: Platform, package: Package, roots: seq<File>, dependencies: seq<File>,
                    reachable: set<string>, unused: set<string>)
    requires forall name :: name in reachable <==> Reachable(p, package, roots, name)
    requires unused == set d | d in dependencies && p.fold(d.name) !in reachable :: d.name
    ensures forall name :: name in unused <==> Unused(p, package, roots, dependencies, name)
  {
    hide Reachable;
    forall name
      ensures name in unused <==> Unused(p, package, roots, dependencies, name)
    {
      if Unused(p, package, roots, dependencies, name) {
        var k :| 0 <= k < |dependencies| && dependencies[k].name == name;
        assert dependencies[k] in dependencies;
      }
    }
  }
}
