/** The ordering of C structures by the structures their fields name. */
module StructOrder {
  import opened Results

  predicate Distinct(names: seq<string>) {
    forall i, j :: 0 <= i < j < |names| ==> names[i] != names[j]
  }

  /** The names are the keys of the table in some order, each once. */
  ghost predicate Lists(names: seq<string>, table: map<string, set<string>>) {
    Distinct(names) && forall name :: name in names <==> name in table
  }

  /** A field of structure `a` names structure `b`, directly or through a pointer. */
  predicate Uses(table: map<string, set<string>>, a: string, b: string) {
    a in table && b in table && b in table[a]
  }

  /** Every structure comes after all those it uses. */
  ghost predicate Sorted(table: map<string, set<string>>, order: seq<string>) {
    forall k, b :: 0 <= k < |order| && Uses(table, order[k], b) ==> b in order[..k]
  }

  /** Each structure of the path uses the next one, and the last uses the first. */
  ghost predicate Cycle(table: map<string, set<string>>, path: seq<string>) {
    && path != []
    && (forall k :: 0 <= k < |path| - 1 ==> Uses(table, path[k], path[k + 1]))
    && Uses(table, path[|path| - 1], path[0])
  }

  ghost predicate Cyclic(table: map<string, set<string>>) {
    exists path :: Cycle(table, path)
  }

  // ---------- The loop ----------

  function Members(names: seq<string>): set<string> {
    set name | name in names
  }

  /** Deletion of the key at some place. */
  function Without(names: seq<string>, k: nat): (r: seq<string>)
    requires k < |names|
    ensures |r| == |names| - 1
    ensures forall j :: 0 <= j < |r| ==> r[j] == names[if j < k then j else j + 1]
  {
    names[..k] + names[k + 1..]
  }

  lemma WithoutMembers(names: seq<string>, k: nat, name: string)
    requires k < |names| && Distinct(names)
    ensures Distinct(Without(names, k))
    ensures name in Without(names, k) <==> name in names && name != names[k]
  {
    var r := Without(names, k);
    if j :| 0 <= j < |names| && names[j] == name && j != k {
      assert r[if j < k then j else j - 1] == name;
    }
  }

  /** What has been ordered and what is pending make up the table, and the ordered part is sorted. */
  ghost predicate Progress(table: map<string, set<string>>, ordered: seq<string>, pending: seq<string>) {
    && Distinct(ordered) && Distinct(pending)
    && (forall name :: name in table <==> name in ordered || name in pending)
    && (forall name :: name in ordered ==> name !in pending)
    && Sorted(table, ordered)
  }

  /** Moving a structure that uses nothing pending to the end of the order. */
  lemma Moved(table: map<string, set<string>>, ordered: seq<string>, pending: seq<string>, k: nat)
    requires Progress(table, ordered, pending) && k < |pending|
    requires table[pending[k]] * Members(pending) == {}
    ensures Progress(table, ordered + [pending[k]], Without(pending, k))
  {
    var name := pending[k];
    assert name in pending;
    forall other
      ensures other in Without(pending, k) <==> other in pending && other != name
    {
      WithoutMembers(pending, k, other);
    }
    forall j, b | 0 <= j <= |ordered| && Uses(table, (ordered + [name])[j], b)
      ensures b in (ordered + [name])[..j]
    {
      assert (ordered + [name])[..j] == ordered[..j];
      if j == |ordered| {
        assert ordered[..j] == ordered;
        assert b !in table[name] * Members(pending);
      }
    }
    WithoutMembers(pending, k, name);
  }

  /** One pass over the pending structures: each that uses nothing pending moves to the order. */
  method Pass(table: map<string, set<string>>, before: seq<string>, waiting: seq<string>)
    returns (ordered: seq<string>, pending: seq<string>, progressed: bool)
    requires Progress(table, before, waiting)
    ensures Progress(table, ordered, pending)
    ensures if progressed then |pending| < |waiting| else pending == waiting && Blocked(table, pending, |pending|)
  {
    ordered, pending, progressed := before, waiting, false;
    var skipped := 0;
    while skipped < |pending|
      invariant skipped <= |pending| <= |waiting|
      invariant Progress(table, ordered, pending)
      invariant if progressed then |pending| < |waiting| else pending == waiting && Blocked(table, pending, skipped)
      decreases |pending| - skipped
    {
      hide Sorted, Distinct, Lists, Without;
      var dependencies := table[pending[skipped]] * Members(pending);
      if dependencies != {} {
        skipped := skipped + 1;
        continue;
      }
      Moved(table, ordered, pending, skipped);
      ordered := ordered + [pending[skipped]];
      pending := Without(pending, skipped);
      progressed := true;
    }
  }

  /** The structures in dependency order, or None when a pass over the pending ones moves nothing. */
  method Order(names: seq<string>, table: map<string, set<string>>) returns (order: Option<seq<string>>)
    requires Lists(names, table)
    ensures order.Some? ==> Lists(order.value, table) && Sorted(table, order.value)
    ensures order == None <==> Cyclic(table)
  {
    var pending, ordered := names, [];
    while pending != []
      invariant Progress(table, ordered, pending)
      decreases |pending|
    {
      var progressed;
      ordered, pending, progressed := Pass(table, ordered, pending);
      if !progressed {
        CycleAmong(table, pending, [pending[0]]);
        return None;
      }
    }
    SortedIsAcyclic(table, ordered);
    return Some(ordered);
  }

  /** The first structures of a group each use one of the group. */
  predicate Blocked(table: map<string, set<string>>, group: seq<string>, count: nat)
    requires count <= |group|
  {
    forall k :: 0 <= k < count ==> group[k] in table && table[group[k]] * Members(group) != {}
  }

  // ---------- Cycles ----------

  lemma {:induction false} DistinctFits(names: seq<string>, all: set<string>)
    requires Distinct(names) && forall k :: 0 <= k < |names| ==> names[k] in all
    ensures |names| <= |all|
  {
    if names != [] {
      var last := names[|names| - 1];
      DistinctFits(names[..|names| - 1], all - {last});
    }
  }

  /** Where every structure of a group uses one of the group, following the uses closes a cycle. */
  lemma {:induction false} CycleAmong(table: map<string, set<string>>, group: seq<string>, path: seq<string>)
    requires Blocked(table, group, |group|)
    requires path != [] && Distinct(path) && forall k :: 0 <= k < |path| ==> path[k] in group
    requires forall k :: 0 <= k < |path| - 1 ==> Uses(table, path[k], path[k + 1])
    ensures Cyclic(table)
    decreases |Members(group)| - |path|
  {
    var last := path[|path| - 1];
    var next :| next in table[last] * Members(group);
    if j :| 0 <= j < |path| && path[j] == next {
      assert Cycle(table, path[j..]);
    } else {
      var longer := path + [next];
      DistinctFits(longer, Members(group));
      CycleAmong(table, group, longer);
    }
  }

  /** Along a path of uses, the places in a sorted order go down. */
  lemma {:induction false} PlacesDescend(table: map<string, set<string>>, order: seq<string>, path: seq<string>,
                                         n: nat, from: nat)
    requires Sorted(table, order) && Distinct(order)
    requires n < |path| && forall k :: 0 <= k < |path| - 1 ==> Uses(table, path[k], path[k + 1])
    requires from < |order| && order[from] == path[0]
    ensures exists to :: 0 <= to <= from && order[to] == path[n]
  {
    if n != 0 {
      PlacesDescend(table, order, path, n - 1, from);
      var place :| 0 <= place <= from && order[place] == path[n - 1];
      assert Uses(table, order[place], path[n]);
      assert path[n] in order[..place];
    }
  }

  lemma SortedIsAcyclic(table: map<string, set<string>>, order: seq<string>)
    requires Lists(order, table) && Sorted(table, order)
    ensures !Cyclic(table)
  {
    forall path
      ensures !Cycle(table, path)
    {
      if Cycle(table, path) {
        assert Uses(table, path[|path| - 1], path[0]);
        var from :| 0 <= from < |order| && order[from] == path[0];
        PlacesDescend(table, order, path, |path| - 1, from);
      }
    }
  }
}
