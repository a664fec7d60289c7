/**
 * The depth-first ordering of packages (and, with the same code, of crates)
 * for publishing: dependencies before dependents.
 */
module TopoSort {
  import opened Prelude

  datatype Package = Package(name: string, dir: string, localDeps: seq<string>)

  function Names(packages: seq<Package>): set<string> {
    set p | p in packages :: p.name
  }

  /** `new Map(packages.map((p) => [p.name, p])).get(name)`: the last package of that name. */
  function Find(packages: seq<Package>, name: string): Option<Package> {
    if packages == [] then None
    else if Last(packages).name == name then Some(Last(packages))
    else Find(DropLast(packages), name)
  }

  lemma {:induction false} FindFinds(packages: seq<Package>, name: string)
    ensures Find(packages, name).Some? <==> name in Names(packages)
    ensures Find(packages, name).Some? ==>
        Find(packages, name).value in packages && Find(packages, name).value.name == name
  {
    if packages != [] {
      FindFinds(DropLast(packages), name);
      assert packages == DropLast(packages) + [Last(packages)];
      assert Names(packages) == Names(DropLast(packages)) + {Last(packages).name};
    }
  }

  // ------------------------------------------------------------------ the graph

  /** `a` lists `b`, and `b` is among the packages. */
  ghost predicate Edge(packages: seq<Package>, a: string, b: string) {
    b in Names(packages) && exists p :: p in packages && p.name == a && b in p.localDeps
  }

  ghost predicate Path(packages: seq<Package>, path: seq<string>) {
    forall i, j :: 0 <= i && j == i + 1 && j < |path| ==> Edge(packages, path[i], path[j])
  }

  ghost predicate Cyclic(packages: seq<Package>) {
    exists path :: |path| >= 2 && Path(packages, path) && path[0] == Last(path)
  }

  ghost predicate DistinctNames(packages: seq<Package>) {
    forall i, j :: 0 <= i < j < |packages| ==> packages[i].name != packages[j].name
  }

  /** Every package comes after all of its listed dependencies that are among `packages`. */
  ghost predicate DepsBefore(order: seq<Package>, packages: seq<Package>) {
    forall i, d :: 0 <= i < |order| && d in order[i].localDeps && d in Names(packages) ==> d in Names(order[..i])
  }

  /** Walking along dependencies means walking to the front of a good order. */
  lemma {:induction false} PathGoesForward(order: seq<Package>, packages: seq<Package>, path: seq<string>, i: nat)
    requires DepsBefore(order, packages) && DistinctNames(order) && (forall p :: p in packages <==> p in order)
    requires |path| >= 2 && Path(packages, path)
    requires i < |order| && order[i].name == path[0]
    ensures Last(path) in Names(order[..i])
    decreases |path|
  {
    assert Edge(packages, path[0], path[1]);
    var p :| p in packages && p.name == path[0] && path[1] in p.localDeps;
    var k :| 0 <= k < |order| && order[k] == p;
    assert k == i;
    assert path[1] in Names(order[..i]);
    if |path| > 2 {
      var q :| q in order[..i] && q.name == path[1];
      var j :| 0 <= j < i && order[j] == q;
      assert Path(packages, path[1..]) by {
        forall n, m | 0 <= n && m == n + 1 && m < |path[1..]| ensures Edge(packages, path[1..][n], path[1..][m]) {
          assert Edge(packages, path[n + 1], path[m + 1]);
        }
      }
      PathGoesForward(order, packages, path[1..], j);
      assert order[..j] <= order[..i];
      assert forall x :: x in order[..j] ==> x in order[..i];
    }
  }

  /** No order of a cyclic graph can put every package after its dependencies. */
  lemma CyclesCannotBeOrdered(order: seq<Package>, packages: seq<Package>)
    requires DistinctNames(order) && (forall p :: p in packages <==> p in order)
    requires Cyclic(packages)
    ensures !DepsBefore(order, packages)
  {
    if DepsBefore(order, packages) {
      var path :| |path| >= 2 && Path(packages, path) && path[0] == Last(path);
      assert Edge(packages, path[0], path[1]);
      var p :| p in packages && p.name == path[0] && path[1] in p.localDeps;
      var i :| 0 <= i < |order| && order[i] == p;
      PathGoesForward(order, packages, path, i);
      assert false;
    }
  }

  // --------------------------------------------------------------------- the sort

  /** The closure's shared state: what has been visited, and the packages finished so far. */
  class Sorter {
    const packages: seq<Package>
    var visited: set<string>
    var result: seq<Package>

    /** `stack` holds the names being visited, outermost first. */
    ghost predicate Valid(stack: seq<string>)
      reads this
    {
      && visited <= Names(packages)
      && (forall p :: p in result ==> p in packages)
      && DistinctNames(result)
      && visited == Names(result) + Elements(stack)
      && Names(result) * Elements(stack) == {}
      && Path(packages, stack)
      && (Cyclic(packages) || DepsBefore(result, packages))
    }

    constructor (packages: seq<Package>)
      ensures this.packages == packages && visited == {} && result == [] && Valid([])
    {
      this.packages := packages;
      visited, result := {}, [];
    }

    method Visit(pkg: Package, ghost stack: seq<string>)
      requires Valid(stack) && pkg in packages
      requires stack != [] ==> Edge(packages, Last(stack), pkg.name)
      modifies this
      ensures Valid(stack)
      ensures old(visited) <= visited && pkg.name in visited
      decreases |Names(packages) - visited|, 2
    {
      if pkg.name in visited {
        return;
      }
      VisitNew(pkg, stack);
    }

    /** The rest of a visit, when the package has not been seen. */
    method VisitNew(pkg: Package, ghost stack: seq<string>)
      requires Valid(stack) && pkg in packages && pkg.name !in visited
      requires stack != [] ==> Edge(packages, Last(stack), pkg.name)
      modifies this
      ensures Valid(stack)
      ensures old(visited) <= visited && pkg.name in visited
      decreases |Names(packages) - visited|, 1
    {
      ghost var inner := stack + [pkg.name];
      OneFewerUnvisited(Names(packages), visited, pkg.name);
      Enter(pkg, stack, inner);
      VisitDependencies(pkg, inner);
      Finish(pkg, stack, inner);
    }

    /** The loop of a visit, over the dependencies that are packages themselves. */
    method VisitDependencies(pkg: Package, ghost inner: seq<string>)
      requires Valid(inner) && pkg in packages && inner != [] && Last(inner) == pkg.name
      modifies this
      ensures Valid(inner)
      ensures old(visited) <= visited && Covered(packages, pkg.localDeps, visited)
      decreases |Names(packages) - visited|, 3
    {
      ghost var unvisited := Names(packages) - visited;
      for i := 0 to |pkg.localDeps|
        invariant Valid(inner)
        invariant old(visited) <= visited
        invariant Covered(packages, pkg.localDeps[..i], visited)
      {
        ghost var seen := visited;
        var dep := pkg.localDeps[i];
        var d := Find(packages, dep);
        FindFinds(packages, dep);
        if d.Some? {
          SubsetCardinality(Names(packages) - visited, unvisited);
          Visit(d.value, inner);
        }
        CoverOneMore(packages, pkg.localDeps, i, seen, visited);
      }
      assert pkg.localDeps[..|pkg.localDeps|] == pkg.localDeps;
    }

    /** `visited.add(pkg.name)`. */
    method Enter(pkg: Package, ghost stack: seq<string>, ghost inner: seq<string>)
      requires Valid(stack) && inner == stack + [pkg.name] && pkg in packages && pkg.name !in visited
      requires stack != [] ==> Edge(packages, Last(stack), pkg.name)
      modifies this`visited
      ensures Valid(inner) && visited == old(visited) + {pkg.name} && pkg.name !in stack
    {
      visited := visited + {pkg.name};
      PathGrows(packages, stack, pkg.name);
      assert Elements(inner) == Elements(stack) + {pkg.name};
      assert pkg.name !in Elements(stack);
    }

    /** `result.push(pkg)`, once all dependencies are done. */
    method Finish(pkg: Package, ghost stack: seq<string>, ghost inner: seq<string>)
      requires Valid(inner) && inner == stack + [pkg.name] && pkg in packages && pkg.name !in stack
      requires Covered(packages, pkg.localDeps, visited)
      modifies this`result
      ensures Valid(stack) && result == old(result) + [pkg]
    {
      assert Elements(inner) == Elements(stack) + {pkg.name};
      assert Elements(inner) <= Names(packages);
      assert pkg.name in Elements(inner);
      GrayDependencyIsACycle(packages, inner, pkg);
      PathShrinks(packages, stack, pkg.name);
      DepsBeforeOneMore(result, packages, pkg);
      result := result + [pkg];
    }
  }

  /** All of `deps` that are packages have been visited. */
  ghost predicate Covered(packages: seq<Package>, deps: seq<string>, visited: set<string>) {
    forall d :: d in deps && d in Names(packages) ==> d in visited
  }

  lemma CoverOneMore(packages: seq<Package>, deps: seq<string>, i: nat, before: set<string>, after: set<string>)
    requires i < |deps| && Covered(packages, deps[..i], before) && before <= after
    requires deps[i] in Names(packages) ==> deps[i] in after
    ensures Covered(packages, deps[..i + 1], after)
  {
    assert deps[..i + 1] == deps[..i] + [deps[i]];
  }

  lemma PathGrows(packages: seq<Package>, stack: seq<string>, name: string)
    requires Path(packages, stack) && (stack != [] ==> Edge(packages, Last(stack), name))
    ensures Path(packages, stack + [name])
  {
  }

  lemma PathShrinks(packages: seq<Package>, stack: seq<string>, name: string)
    requires Path(packages, stack + [name])
    ensures Path(packages, stack)
  {
    var inner := stack + [name];
    forall i, j | 0 <= i && j == i + 1 && j < |stack| ensures Edge(packages, stack[i], stack[j]) {
      assert Edge(packages, inner[i], inner[j]);
    }
  }

  /** Appending a package whose dependencies are all in the list. */
  lemma DepsBeforeOneMore(order: seq<Package>, packages: seq<Package>, pkg: Package)
    ensures Names(order + [pkg]) == Names(order) + {pkg.name}
    ensures DistinctNames(order) && pkg.name !in Names(order) ==> DistinctNames(order + [pkg])
    ensures DepsBefore(order, packages) && Covered(packages, pkg.localDeps, Names(order)) ==>
        DepsBefore(order + [pkg], packages)
  {
    var longer := order + [pkg];
    assert forall i :: 0 <= i < |order| ==> order[i].name in Names(order);
    if DepsBefore(order, packages) && Covered(packages, pkg.localDeps, Names(order)) {
      forall i, d | 0 <= i < |longer| && d in longer[i].localDeps &&
          d in Names(packages) ensures d in Names(longer[..i]) {
        assert longer[..i] == order[..i];
        assert order[..|order|] == order;
      }
    }
  }

  lemma OneFewerUnvisited(names: set<string>, visited: set<string>, x: string)
    requires x in names && x !in visited
    ensures |names - (visited + {x})| < |names - visited|
  {
    assert names - visited == (names - (visited + {x})) + {x};
  }

  /** A dependency that is still being visited closes a cycle. */
  lemma GrayDependencyIsACycle(packages: seq<Package>, inner: seq<string>, pkg: Package)
    requires Path(packages, inner) && inner != [] && Last(inner) == pkg.name && pkg in packages
    requires forall x :: x in inner ==> x in Names(packages)
    ensures Cyclic(packages) || forall d :: d in pkg.localDeps ==> d !in inner
  {
    if d :| d in pkg.localDeps && d in inner {
      var k :| 0 <= k < |inner| && inner[k] == d;
      var cycle := inner[k..] + [d];
      forall i, j | 0 <= i && j == i + 1 && j < |cycle| ensures Edge(packages, cycle[i], cycle[j]) {
        if k + j < |inner| {
          assert Edge(packages, inner[k + i], inner[k + j]);
        } else {
          assert cycle[i] == pkg.name && cycle[j] == d;
        }
      }
      assert |cycle| >= 2 && Path(packages, cycle) && cycle[0] == Last(cycle);
    }
  }

  /**
   * Sorts packages for publishing. It ends on every graph, cyclic ones
   * included; with distinct names the result is a permutation of the input;
   * and every package comes after its dependencies if and only if the
   * dependencies have no cycle.
   */
  method Sort(packages: seq<Package>) returns (result: seq<Package>)
    ensures DistinctNames(result) && Names(result) == Names(packages) && forall p :: p in result ==> p in packages
    ensures DistinctNames(packages) ==> multiset(result) == multiset(packages)
    ensures !Cyclic(packages) ==> DepsBefore(result, packages)
    ensures DistinctNames(packages) ==> (DepsBefore(result, packages) <==> !Cyclic(packages))
  {
    var sorter := new Sorter(packages);
    for i := 0 to |packages|
      invariant sorter.packages == packages && sorter.Valid([])
      invariant forall k :: 0 <= k < i ==> packages[k].name in sorter.visited
    {
      sorter.Visit(packages[i], []);
    }
    result := sorter.result;
    assert Elements<string>([]) == {};
    assert Names(result) == Names(packages);
    if DistinctNames(packages) {
      SameNamesSamePackages(result, packages);
      if Cyclic(packages) {
        CyclesCannotBeOrdered(result, packages);
      }
    }
  }

  lemma {:induction false} CountOfDistinct(packages: seq<Package>, p: Package)
    requires DistinctNames(packages)
    ensures multiset(packages)[p] == if p in packages then 1 else 0
  {
    if packages != [] {
      assert packages == DropLast(packages) + [Last(packages)];
      CountOfDistinct(DropLast(packages), p);
    }
  }

  /** Lists with distinct names and the same names, one drawn from the other, are permutations. */
  lemma SameNamesSamePackages(result: seq<Package>, packages: seq<Package>)
    requires DistinctNames(result) && DistinctNames(packages)
    requires Names(result) == Names(packages) && forall p :: p in result ==> p in packages
    ensures multiset(result) == multiset(packages)
    ensures forall p :: p in packages <==> p in result
  {
    forall p | p in packages ensures p in result {
      assert p.name in Names(result);
      var q :| q in result && q.name == p.name;
      var i :| 0 <= i < |packages| && packages[i] == p;
      var j :| 0 <= j < |packages| && packages[j] == q;
    }
    forall p ensures multiset(result)[p] == multiset(packages)[p] {
      CountOfDistinct(result, p);
      CountOfDistinct(packages, p);
    }
  }
}
