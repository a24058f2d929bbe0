/** Ordering requirement files by their dependencies, layer by layer. */
module ResolveDeps {
  import Collections
  import opened Wrappers

  /** A mutable set of names, as stored in the global dependency table. */
  class NameSet {
    var elems: set<string>

    constructor (elems: set<string>)
      ensures this.elems == elems
    {
      this.elems := elems;
    }
  }

  /** The dependencies restricted to the given names. */
  type Graph = map<string, set<string>>

  ghost function Restricted(table: map<string, NameSet>, names: set<string>): Graph
    reads table.Values
  {
    map s | s in table && s in names :: table[s].elems * names
  }

  ghost predicate DependsOn(g: Graph, s: string, d: string) { s in g && d in g[s] }

  /** Each source once, and after everything it depends on. */
  ghost predicate Ordered(g: Graph, order: seq<string>) {
    && (forall i, j :: 0 <= i < j < |order| ==> order[i] != order[j])
    && (forall i :: 0 <= i < |order| ==> order[i] in g)
    && (forall i, d :: 0 <= i < |order| && DependsOn(g, order[i], d) ==> d in order[..i])
  }

  /** Some source depends on a name that has no entry in the table. */
  ghost predicate Missing(g: Graph) { exists s, d :: DependsOn(g, s, d) && d !in g }

  ghost predicate Walk(g: Graph, p: seq<string>) {
    forall i :: 0 <= i < |p| - 1 ==> DependsOn(g, p[i], p[i + 1])
  }

  ghost predicate Cycle(g: Graph, p: seq<string>) { |p| > 1 && Walk(g, p) && p[0] == p[|p| - 1] }

  ghost predicate Cyclic(g: Graph) { exists p :: Cycle(g, p) }

  // A complete order exists only without cycles and missing names

  lemma {:induction false} WalkGoesDown(g: Graph, order: seq<string>, p: seq<string>, i: nat)
    requires Ordered(g, order) && Walk(g, p) && |p| > 0 && i < |order| && p[0] == order[i]
    ensures |p| > 1 ==> p[|p| - 1] in order[..i]
  {
    if |p| > 1 {
      assert DependsOn(g, p[0], p[1]);
      var j :| 0 <= j < i && order[j] == p[1];
      var rest := p[1..];
      forall k | 0 <= k < |rest| - 1
        ensures DependsOn(g, rest[k], rest[k + 1])
      {
        assert DependsOn(g, p[k + 1], p[k + 2]);
      }
      WalkGoesDown(g, order, rest, j);
      assert rest[|rest| - 1] == p[|p| - 1];
    }
  }

  lemma OrderedIsAcyclic(g: Graph, order: seq<string>)
    requires Ordered(g, order) && Elements(order) == g.Keys
    ensures !Cyclic(g) && !Missing(g)
  {
    forall p
      ensures !Cycle(g, p)
    {
      if Cycle(g, p) {
        assert DependsOn(g, p[0], p[1]);
        assert p[0] in Elements(order);
        var i :| 0 <= i < |order| && order[i] == p[0];
        WalkGoesDown(g, order, p, i);
        assert false;
      }
    }
    forall s, d | DependsOn(g, s, d)
      ensures d in g
    {
      assert s in Elements(order);
      var i :| 0 <= i < |order| && order[i] == s;
      assert d in order[..i];
    }
  }

  // A stuck remainder holds a cycle or lacks a name

  /** Every remaining source still waits for something that is not in the solution. */
  ghost predicate Stuck(g: Graph, left: set<string>) {
    left <= g.Keys && forall s {:trigger Waits(g, left, s)} :: s in left ==> Waits(g, left, s)
  }

  ghost predicate Waits(g: Graph, left: set<string>, s: string) {
    exists d :: DependsOn(g, s, d) && (d in left || d !in g)
  }

  lemma {:induction false} WalkInside(g: Graph, left: set<string>, s: string, n: nat) returns (p: seq<string>)
    requires Stuck(g, left) && !Missing(g) && s in left
    ensures |p| == n + 1 && p[0] == s && Walk(g, p)
    ensures forall i :: 0 <= i < |p| ==> p[i] in left
    decreases n
  {
    if n == 0 {
      p := [s];
    } else {
      assert Waits(g, left, s);
      var d :| DependsOn(g, s, d) && (d in left || d !in g);
      var rest := WalkInside(g, left, d, n - 1);
      p := [s] + rest;
      forall i | 0 <= i < |p| - 1
        ensures DependsOn(g, p[i], p[i + 1])
      {
        if i > 0 { assert DependsOn(g, rest[i - 1], rest[i]); }
      }
    }
  }

  /** A sequence longer than the set it is drawn from repeats an element. */
  lemma {:induction false} Repeats(p: seq<string>, from: set<string>) returns (i: nat, j: nat)
    requires |p| > |from| && forall k :: 0 <= k < |p| ==> p[k] in from
    ensures i < j < |p| && p[i] == p[j]
  {
    var last := p[|p| - 1];
    if k :| 0 <= k < |p| - 1 && p[k] == last {
      i, j := k, |p| - 1;
    } else {
      i, j := Repeats(p[..|p| - 1], from - {last});
    }
  }

  lemma StuckIsBad(g: Graph, left: set<string>)
    requires Stuck(g, left) && left != {}
    ensures Missing(g) || Cyclic(g)
  {
    if !Missing(g) {
      var s :| s in left;
      var p := WalkInside(g, left, s, |left|);
      var i, j := Repeats(p, left);
      var c := p[i..j + 1];
      forall k | 0 <= k < |c| - 1
        ensures DependsOn(g, c[k], c[k + 1])
      {
        assert DependsOn(g, p[i + k], p[i + k + 1]);
      }
      assert Cycle(g, c);
    }
  }

  // The algorithm

  /** The sources left, each with its dependencies that are not in the solution yet. */
  ghost predicate Waiting(g: Graph, requirements: map<string, NameSet>, solution: seq<string>)
    reads requirements.Values
  {
    && Ordered(g, solution)
    && (forall s :: s in g ==> (s in requirements <==> s !in solution))
    && (forall s :: s in requirements ==> s in g && requirements[s].elems == g[s] - Elements(solution))
    && (forall s, t :: s in requirements && t in requirements && s != t ==> requirements[s] != requirements[t])
  }

  ghost function Elements(s: seq<string>): set<string> { set x | x in s }

  /** Partially orders the names: the result lists exactly the names that are in the table, each once and after
      all its dependencies among the names. It raises exactly when there is no such order, because the restricted
      dependencies contain a cycle or mention a name without an entry. The table is not changed: the method
      only modifies sets it creates itself. */
  method Resolve(table: map<string, NameSet>, names: set<string>) returns (r: Result<seq<string>, string>)
    ensures r.Ok? ==> Ordered(Restricted(table, names), r.value) && Elements(r.value) == table.Keys * names
    ensures r.Err? <==> Cyclic(Restricted(table, names)) || Missing(Restricted(table, names))
    ensures r.Ok? ==> InTurn(table, names, r.value)
    ensures (exists s, d :: s in table && s in names && d in table[s].elems && d in names && d !in table) ==> r.Err?
  {
    ghost var g := Restricted(table, names);
    var requirements := CopyRestricted(table, names);
    var solution, left := TakeLayers(g, requirements);
    if left == {} {
      OrderedIsAcyclic(g, solution);
      assert forall s, d :: s in table && s in names && d in table[s].elems && d in names ==> DependsOn(g, s, d);
      return Ok(solution);
    } else {
      StuckIsBad(g, left);
      return Err("Missing dependencies or circular dependency");
    }
  }

  /** In terms of the table: whatever a listed source needs among the names is listed before it. */
  ghost predicate InTurn(table: map<string, NameSet>, names: set<string>, order: seq<string>)
    reads table.Values
  {
    forall i, d :: 0 <= i < |order| && order[i] in table && d in table[order[i]].elems && d in names ==> d in order[..i]
  }

  /** Takes layers until none is left, or until the sources that are left all wait for something. */
  method TakeLayers(ghost g: Graph, requirements: map<string, NameSet>) returns (solution: seq<string>,
                    left: set<string>)
    requires Waiting(g, requirements, [])
    modifies requirements.Values
    ensures Ordered(g, solution) && Elements(solution) == g.Keys - left
    ensures Stuck(g, left)
  {
    var waiting := requirements;
    solution := [];
    while waiting != map[]
      invariant waiting.Values <= requirements.Values
      invariant Waiting(g, waiting, solution)
      decreases |waiting|
    {
      var satisfied := set s | s in waiting && waiting[s].elems == {};
      if satisfied == {} {
        assert forall s :: s in waiting && waiting[s].elems == {} ==> s in satisfied;
        NobodySatisfied(g, waiting, solution);
        break;
      }
      waiting, solution := TakeLayer(g, waiting, satisfied, solution);
    }
    left := waiting.Keys;
  }

  lemma NobodySatisfied(g: Graph, requirements: map<string, NameSet>, solution: seq<string>)
    requires Waiting(g, requirements, solution) && forall s :: s in requirements ==> requirements[s].elems != {}
    ensures Stuck(g, requirements.Keys)
  {
    forall s | s in requirements
      ensures Waits(g, requirements.Keys, s)
    {
      var d :| d in requirements[s].elems;
      assert DependsOn(g, s, d);
    }
  }

  method CopyRestricted(table: map<string, NameSet>, names: set<string>) returns (requirements: map<string, NameSet>)
    ensures forall s :: s in requirements ==> fresh(requirements[s])
    ensures Waiting(Restricted(table, names), requirements, [])
  {
    ghost var g := Restricted(table, names);
    requirements := map[];
    var todo := set s | s in table && s in names;
    while todo != {}
      invariant todo <= g.Keys && requirements.Keys == g.Keys - todo
      invariant forall s :: s in requirements ==> fresh(requirements[s])
      invariant forall s :: s in requirements ==> requirements[s].elems == g[s]
      invariant forall s, t :: s in requirements && t in requirements && s != t ==> requirements[s] != requirements[t]
      decreases |todo|
    {
      var s :| s in todo;
      var copy := new NameSet(table[s].elems * names);
      requirements := requirements[s := copy];
      todo := todo - {s};
    }
  }

  /** Moves the satisfied sources to the end of the solution and strikes them off all dependencies. */
  method TakeLayer(ghost g: Graph, requirements: map<string, NameSet>, satisfied: set<string>, solution: seq<string>)
    returns (requirements': map<string, NameSet>, solution': seq<string>)
    requires Waiting(g, requirements, solution)
    requires satisfied != {} && satisfied <= requirements.Keys && forall s :: s in satisfied ==> requirements[s].elems == {}
    modifies requirements.Values
    ensures requirements' == requirements - satisfied
    ensures |requirements'| < |requirements|
    ensures Waiting(g, requirements', solution')
  {
    forall s | s in satisfied
      ensures g[s] <= Elements(solution)
    {
      assert requirements[s].elems == g[s] - Elements(solution);
      Difference(g[s], Elements(solution), {});
    }
    solution' := Extend(g, satisfied, solution);
    requirements' := requirements - satisfied;
    assert requirements'.Keys < requirements.Keys;
    Collections.SmallerSet(requirements'.Keys, requirements.Keys);
    StrikeOff(requirements', satisfied);
    forall s | s in requirements'
      ensures requirements'[s].elems == g[s] - Elements(solution')
    {
      Difference(g[s], Elements(solution), satisfied);
    }
    forall s | s in g
      ensures s in requirements' <==> s !in solution'
    {
      assert s in solution' <==> s in Elements(solution');
      assert s in solution <==> s in Elements(solution);
    }
  }

  lemma Difference(a: set<string>, b: set<string>, c: set<string>)
    ensures a - b - c == a - (b + c)
    ensures a - b == {} ==> a <= b
  {
    if a - b == {} {
      forall x | x in a
        ensures x in b
      {
        assert x in a - b || x in b;
      }
    }
  }

  method StrikeOff(requirements: map<string, NameSet>, satisfied: set<string>)
    requires forall s, t :: s in requirements && t in requirements && s != t ==> requirements[s] != requirements[t]
    modifies requirements.Values
    ensures forall s :: s in requirements ==> requirements[s].elems == old(requirements[s].elems) - satisfied
  {
    var todo := requirements.Keys;
    while todo != {}
      invariant todo <= requirements.Keys
      invariant forall s :: s in todo ==> requirements[s].elems == old(requirements[s].elems)
      invariant forall s :: s in requirements && s !in todo ==> requirements[s].elems == old(requirements[s].elems) - satisfied
      decreases |todo|
    {
      var s :| s in todo;
      requirements[s].elems := requirements[s].elems - satisfied;
      todo := todo - {s};
    }
  }

  method Extend(ghost g: Graph, satisfied: set<string>, solution: seq<string>) returns (solution': seq<string>)
    requires Ordered(g, solution) && satisfied <= g.Keys && satisfied !! Elements(solution)
    requires forall s :: s in satisfied ==> g[s] <= Elements(solution)
    ensures Ordered(g, solution') && Elements(solution') == Elements(solution) + satisfied
  {
    solution' := solution;
    var left := satisfied;
    ghost var base, done := Elements(solution), {};
    while left != {}
      invariant done !! left && done + left == satisfied
      invariant Ordered(g, solution') && Elements(solution') == base + done
      decreases |left|
    {
      var s :| s in left;
      ElementsSnoc(solution', s);
      OrderedSnoc(g, solution', s);
      Collections.UnionOneMore(base, done, s);
      Collections.MoveOne(done, left, s);
      solution' := solution' + [s];
      left, done := left - {s}, done + {s};
    }
  }

  lemma ElementsSnoc(order: seq<string>, s: string)
    ensures Elements(order + [s]) == Elements(order) + {s}
    ensures s in order <==> s in Elements(order)
  {
  }

  lemma OrderedSnoc(g: Graph, order: seq<string>, s: string)
    requires Ordered(g, order) && s in g && s !in order && g[s] <= Elements(order)
    ensures Ordered(g, order + [s])
  {
    var longer := order + [s];
    forall i, d | 0 <= i < |longer| && DependsOn(g, longer[i], d)
      ensures d in longer[..i]
    {
      if i < |order| {
        assert longer[..i] == order[..i];
        assert DependsOn(g, order[i], d);
      } else {
        assert longer[..i] == order;
      }
    }
  }
}
