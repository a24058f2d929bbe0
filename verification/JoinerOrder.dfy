/** The order of a join's output, line by line and exactly, on any import graph. */
module JoinerOrder {
  import opened Collections
  import opened Wrappers
  import opened ContractJoiner
  import opened JoinerGraph

  /** All body lines of f are in s. */
  ghost predicate Done(files: Files, f: string, s: seq<Tag>) {
    f in files ==> forall m :: 0 <= m < |files[f]| && files[f][m].Body? ==> Tag(f, m) in s
  }

  /** The line at position q comes after all body lines of every file that an earlier import of its own file
      leads to. */
  ghost predicate OrderedAt(files: Files, s: seq<Tag>, q: nat)
    requires q < |s|
  {
    IsLine(files, s[q]) &&
    forall i, g, h :: 0 <= i < s[q].index && files[s[q].file][i] == Import(Some(g)) && Reaches(files, g, h) ==>
      Done(files, h, s[..q])
  }

  /** An import above the line leads back to the line's own file. */
  ghost predicate LoopsBack(files: Files, t: Tag)
    requires IsLine(files, t)
  {
    exists i, g :: 0 <= i < t.index && files[t.file][i] == Import(Some(g)) && Reaches(files, g, t.file)
  }

  /** Imports lead from h to f without passing through g. */
  ghost predicate LeadsAround(files: Files, g: string, h: string, f: string) {
    exists p :: Connects(files, p, h, f) && g !in p
  }

  /** g has a body line below an import that leads to f without passing through g. */
  ghost predicate Entangled(files: Files, g: string, f: string) {
    g in files &&
    exists j, n, h ::
      && 0 <= j < n < |files[g]| && files[g][n].Body?
      && files[g][j] == Import(Some(h)) && LeadsAround(files, g, h, f)
  }

  /** The line at position q comes after all body lines of each file imported above it, other than its own, that is
      not entangled with its own. */
  ghost predicate DirectAt(files: Files, s: seq<Tag>, q: nat)
    requires q < |s| && IsLine(files, s[q])
  {
    forall k, g :: 0 <= k < s[q].index && files[s[q].file][k] == Import(Some(g)) && g != s[q].file ==>
      Done(files, g, s[..q]) || Entangled(files, g, s[q].file)
  }

  /** From position n on, every line is in order unless an import above it leads back to its file, and comes after
      what it imports directly unless that is entangled with its file. */
  ghost predicate OrderedFrom(files: Files, s: seq<Tag>, n: nat) {
    forall q :: n <= q < |s| ==>
      && IsLine(files, s[q])
      && (!LoopsBack(files, s[q]) ==> OrderedAt(files, s, q))
      && DirectAt(files, s, q)
  }

  /** The files that were seen and are not active any more: their lines are all out, their imports all seen. */
  ghost predicate Finished(files: Files, seen: set<string>, active: set<string>, s: seq<Tag>) {
    && active <= seen
    && Closed(files, seen - active, seen)
    && forall f :: f in seen - active ==> Done(files, f, s)
  }

  lemma FinishedMore(files: Files, seen: set<string>, active: set<string>, s: seq<Tag>, more: seq<Tag>)
    requires Finished(files, seen, active, s)
    ensures Finished(files, seen, active, s + more)
  {
  }

  lemma OrderedTwice(files: Files, s: seq<Tag>, o1: seq<Tag>, o2: seq<Tag>)
    requires OrderedFrom(files, s + o1, |s|) && OrderedFrom(files, s + o1 + o2, |s| + |o1|)
    ensures OrderedFrom(files, s + (o1 + o2), |s|)
  {
    var all := s + (o1 + o2);
    assert s + o1 + o2 == all;
    forall q | |s| <= q < |all|
      ensures IsLine(files, all[q]) && (!LoopsBack(files, all[q]) ==> OrderedAt(files, all, q)) && DirectAt(files, all, q)
    {
      if q < |s| + |o1| {
        assert all[..q] == (s + o1)[..q] && all[q] == (s + o1)[q];
      }
    }
  }

  /** Following imports from a seen file one stays among finished files or comes to an active one. */
  lemma {:induction false} FinishedOrActive(files: Files, seen: set<string>, active: set<string>, p: seq<string>,
                                            g: string, h: string)
    requires g in seen && active <= seen && Closed(files, seen - active, seen) && Connects(files, p, g, h)
    ensures h in seen - active || exists a :: a in active && Reaches(files, g, a)
    decreases |p|
  {
    if g in active {
      ReachesSelf(files, g);
    } else if |p| > 1 {
      assert Imports(files, p[0], p[1]);
      forall i | 0 <= i < |p| - 2
        ensures Imports(files, p[1..][i], p[1..][i + 1])
      {
        assert Imports(files, p[i + 1], p[i + 2]);
      }
      FinishedOrActive(files, seen, active, p[1..], p[1], h);
      if h !in seen - active {
        var a :| a in active && Reaches(files, p[1], a);
        ImportReaches(files, g, p[1], a);
      }
    }
  }

  /** File a waits at its import in line j, which has led to name without coming back to a, with the body lines above
      it in s. */
  ghost predicate WaitsAt(files: Files, a: string, j: nat, h: string, name: string, s: seq<Tag>) {
    && a in files && j < |files[a]| && files[a][j] == Import(Some(h)) && LeadsAround(files, a, h, name)
    && forall n :: 0 <= n < j && files[a][n].Body? ==> Tag(a, n) in s
  }

  ghost predicate Waits(files: Files, a: string, name: string, s: seq<Tag>) {
    exists j: nat, h :: WaitsAt(files, a, j, h, name, s)
  }

  lemma WaitsMore(files: Files, a: string, name: string, s: seq<Tag>, more: seq<Tag>)
    requires Waits(files, a, name, s)
    ensures Waits(files, a, name, s + more)
  {
    var j: nat, h :| WaitsAt(files, a, j, h, name, s);
    assert WaitsAt(files, a, j, h, name, s + more);
  }

  /** The waiting file leads on to whatever name imports, unless that is the waiting file. */
  lemma WaitsDeeper(files: Files, a: string, name: string, target: string, s: seq<Tag>)
    requires Waits(files, a, name, s) && Imports(files, name, target) && a != target
    ensures Waits(files, a, target, s)
  {
    var j: nat, h :| WaitsAt(files, a, j, h, name, s);
    var p :| Connects(files, p, h, name) && a !in p;
    assert Connects(files, p + [target], h, target) && a !in p + [target];
    assert WaitsAt(files, a, j, h, target, s);
  }

  lemma WaitsReaches(files: Files, a: string, name: string, s: seq<Tag>)
    requires Waits(files, a, name, s)
    ensures Reaches(files, a, name)
  {
    var j: nat, h :| WaitsAt(files, a, j, h, name, s);
    assert Imports(files, a, h);
    ImportReaches(files, a, h, name);
  }

  /** A waiting file with a body line still to come is entangled. */
  lemma WaitsEntangled(files: Files, a: string, name: string, s: seq<Tag>)
    requires Waits(files, a, name, s)
    ensures Done(files, a, s) || Entangled(files, a, name)
  {
    var j: nat, h :| WaitsAt(files, a, j, h, name, s);
    if !Done(files, a, s) {
      var n :| 0 <= n < |files[a]| && files[a][n].Body? && Tag(a, n) !in s;
      assert j < n;
    }
  }

  /** Lines before i of the active file have been processed, with the lines s out so far. */
  ghost predicate Ready(files: Files, name: string, i: nat, seen: set<string>, s: seq<Tag>, active: set<string>)
    requires name in files && i <= |files[name]|
  {
    && name in active && Finished(files, seen, active, s)
    && (forall f :: f in active ==> f == name || Waits(files, f, name, s))
    && (forall k, g :: 0 <= k < i && files[name][k] == Import(Some(g)) ==> g in seen)
    && (forall k :: 0 <= k < i && files[name][k].Body? ==> Tag(name, k) in s)
  }

  /** A line kept now is in order, unless it loops back: whatever is not finished is active and so leads to
      the line's file. */
  lemma KeptInOrder(files: Files, name: string, i: nat, seen: set<string>, s: seq<Tag>, active: set<string>)
    requires name in files && i < |files[name]| && Ready(files, name, i, seen, s, active)
    requires !LoopsBack(files, Tag(name, i))
    ensures OrderedAt(files, s + [Tag(name, i)], |s|)
  {
    var t := s + [Tag(name, i)];
    forall k, g, h | 0 <= k < i && files[name][k] == Import(Some(g)) && Reaches(files, g, h)
      ensures Done(files, h, t[..|s|])
    {
      var p :| Connects(files, p, g, h);
      FinishedOrActive(files, seen, active, p, g, h);
      if h !in seen - active {
        var a :| a in active && Reaches(files, g, a);
        if a != name {
          WaitsReaches(files, a, name, s);
          ReachesTrans(files, g, a, name);
        }
      }
      assert t[..|s|] == s;
    }
  }

  /** It comes after what its file imports above it: that is finished or waits for it. */
  lemma KeptAfterImports(files: Files, name: string, i: nat, seen: set<string>, s: seq<Tag>, active: set<string>)
    requires name in files && i < |files[name]| && Ready(files, name, i, seen, s, active)
    ensures DirectAt(files, s + [Tag(name, i)], |s|)
  {
    var t := s + [Tag(name, i)];
    assert t[..|s|] == s;
    forall k, g | 0 <= k < i && files[name][k] == Import(Some(g)) && g != name
      ensures Done(files, g, s) || Entangled(files, g, name)
    {
      if g in active {
        WaitsEntangled(files, g, name, s);
      }
    }
  }

  /** What joining the rest of the active file achieves. */
  ghost predicate InOrder(files: Files, name: string, j: Joined, s: seq<Tag>, active: set<string>) {
    && OrderedFrom(files, s + j.out, |s|)
    && Finished(files, j.seen, active, s + j.out)
    && (forall g :: Imports(files, name, g) ==> g in j.seen)
    && Done(files, name, s + j.out)
  }

  lemma Glue(files: Files, name: string, s: seq<Tag>, out: seq<Tag>, rest: Joined, active: set<string>)
    requires OrderedFrom(files, s + out, |s|) && InOrder(files, name, rest, s + out, active)
    ensures InOrder(files, name, Prepend(out, rest), s, active)
  {
    OrderedTwice(files, s, out, rest.out);
    assert s + out + rest.out == s + (out + rest.out);
  }

  lemma ReadyAfterLine(files: Files, name: string, i: nat, seen: set<string>, pragmas: set<string>, s: seq<Tag>,
                       active: set<string>)
    requires name in files && i < |files[name]| && Ready(files, name, i, seen, s, active)
    requires !(files[name][i].Import? && files[name][i].target.Some?)
    ensures Ready(files, name, i + 1, seen, s + Kept(files, name, i, pragmas), active)
    ensures OrderedFrom(files, s + Kept(files, name, i, pragmas), |s|)
  {
    if !LoopsBack(files, Tag(name, i)) {
      KeptInOrder(files, name, i, seen, s, active);
    }
    KeptAfterImports(files, name, i, seen, s, active);
    ReadyMore(files, name, i, seen, s, active, Kept(files, name, i, pragmas));
  }

  lemma ReadyMore(files: Files, name: string, i: nat, seen: set<string>, s: seq<Tag>, active: set<string>,
                  more: seq<Tag>)
    requires name in files && i <= |files[name]| && Ready(files, name, i, seen, s, active)
    ensures Ready(files, name, i, seen, s + more, active)
  {
    FinishedMore(files, seen, active, s, more);
    forall f | f in active && f != name {
      WaitsMore(files, f, name, s, more);
    }
  }

  lemma ReadyAfterImport(files: Files, name: string, i: nat, seen: set<string>, s: seq<Tag>, active: set<string>,
                         imported: Joined)
    requires name in files && i < |files[name]| && Ready(files, name, i, seen, s, active)
    requires files[name][i].Import? && files[name][i].target.Some? && files[name][i].target.value in imported.seen
    requires seen <= imported.seen && Finished(files, imported.seen, active, s + imported.out)
    ensures Ready(files, name, i + 1, imported.seen, s + imported.out, active)
  {
    forall f | f in active && f != name {
      WaitsMore(files, f, name, s, imported.out);
    }
  }

  /** Entering an unseen file: all active files wait for it. */
  lemma AllWait(files: Files, name: string, i: nat, seen: set<string>, s: seq<Tag>, active: set<string>, target: string)
    requires name in files && i < |files[name]| && Ready(files, name, i, seen, s, active)
    requires files[name][i] == Import(Some(target)) && target !in seen
    ensures forall f :: f in active ==> Waits(files, f, target, s)
  {
    assert Imports(files, name, target);
    forall f | f in active
      ensures Waits(files, f, target, s)
    {
      if f == name {
        assert Connects(files, [target], target, target) && name !in [target];
        assert WaitsAt(files, name, i, target, target, s);
      } else {
        WaitsDeeper(files, f, name, target, s);
      }
    }
  }

  /** Leaving a file: it is active no more, and finished. */
  lemma Leave(files: Files, name: string, j: Joined, s: seq<Tag>, active: set<string>)
    requires name !in active && InOrder(files, name, j, s, active + {name})
    ensures Finished(files, j.seen, active, s + j.out)
  {
    assert j.seen - active == (j.seen - (active + {name})) + {name};
  }

  lemma {:induction false} JoinFileOrder(files: Files, name: string, seen: set<string>, pragmas: set<string>,
                                         s: seq<Tag>, active: set<string>)
    requires name in files && JoinFile(files, name, seen, pragmas).ok
    requires Finished(files, seen, active, s)
    requires name !in seen ==> forall f :: f in active ==> Waits(files, f, name, s)
    ensures var j := JoinFile(files, name, seen, pragmas);
            OrderedFrom(files, s + j.out, |s|) && Finished(files, j.seen, active, s + j.out) && name in j.seen
    decreases |files.Keys - seen|, 0
  {
    var j := JoinFile(files, name, seen, pragmas);
    if name in seen {
      assert s + [] == s;
    } else {
      var seen', active' := seen + {name}, active + {name};
      SmallerSet(files.Keys - seen', files.Keys - seen);
      assert seen' - active' == seen - active;
      JoinLinesOrder(files, name, 0, seen', pragmas, s, active');
      Leave(files, name, j, s, active);
    }
  }

  lemma {:induction false} JoinLinesOrder(files: Files, name: string, i: nat, seen: set<string>, pragmas: set<string>,
                                          s: seq<Tag>, active: set<string>)
    requires name in files && i <= |files[name]| && JoinLines(files, name, i, seen, pragmas).ok
    requires Ready(files, name, i, seen, s, active)
    ensures InOrder(files, name, JoinLines(files, name, i, seen, pragmas), s, active)
    decreases |files.Keys - seen|, 1 + |files[name]| - i
  {
    if i == |files[name]| {
      assert s + [] == s;
    } else if files[name][i].Import? && files[name][i].target.Some? {
      var target := files[name][i].target.value;
      var imported := JoinFile(files, target, seen, pragmas);
      if target !in seen {
        AllWait(files, name, i, seen, s, active, target);
      }
      assert Imports(files, name, target);
      JoinFileOrder(files, target, seen, pragmas, s, active);
      SmallerOrEqualSet(files.Keys - imported.seen, files.Keys - seen);
      ReadyAfterImport(files, name, i, seen, s, active, imported);
      JoinLinesOrder(files, name, i + 1, imported.seen, imported.pragmas, s + imported.out, active);
      Glue(files, name, s, imported.out, JoinLines(files, name, i + 1, imported.seen, imported.pragmas), active);
    } else {
      PlainLineOrder(files, name, i, seen, pragmas, s, active);
    }
  }

  lemma {:induction false} PlainLineOrder(files: Files, name: string, i: nat, seen: set<string>, pragmas: set<string>,
                                          s: seq<Tag>, active: set<string>)
    requires name in files && i < |files[name]| && JoinLines(files, name, i, seen, pragmas).ok
    requires Ready(files, name, i, seen, s, active) && !(files[name][i].Import? && files[name][i].target.Some?)
    ensures InOrder(files, name, JoinLines(files, name, i, seen, pragmas), s, active)
    decreases |files.Keys - seen|, 1 + |files[name]| - i, 0
  {
    var kept, after := Kept(files, name, i, pragmas), AfterLine(files[name][i], pragmas);
    var rest := JoinLines(files, name, i + 1, seen, after);
    ReadyAfterLine(files, name, i, seen, pragmas, s, active);
    JoinLinesOrder(files, name, i + 1, seen, after, s + kept, active);
    Glue(files, name, s, kept, rest, active);
    assert JoinLines(files, name, i, seen, pragmas) == Prepend(kept, rest) by {
      assert [] + rest.out == rest.out;
    }
  }

  // Results

  /** On any import graph, an output line that no import above it leads back to comes after all body lines of all
      files that these imports lead to, also when such an import was skipped because the file was seen. */
  lemma JoinIsOrdered(files: Files, root: string)
    requires root in files && JoinFile(files, root, {}, {}).ok
    ensures OrderedFrom(files, JoinFile(files, root, {}, {}).out, 0)
  {
    var j := JoinFile(files, root, {}, {});
    JoinFileOrder(files, root, {}, {}, [], {});
    assert [] + j.out == j.out;
  }

  /** Every body line comes after all body lines of each file, other than its own, that its file imports above it. */
  ghost predicate ImportsFirst(files: Files, out: seq<Tag>) {
    forall q, k, g ::
      && 0 <= q < |out| && IsLine(files, out[q]) && LineAt(files, out[q]).Body?
      && 0 <= k < out[q].index && files[out[q].file][k] == Import(Some(g)) && g != out[q].file ==>
        Done(files, g, out[..q])
  }

  /** f imports g above one of its body lines. */
  ghost predicate Needs(files: Files, f: string, g: string) {
    f in files && exists k, m :: 0 <= k < m < |files[f]| && files[f][k] == Import(Some(g)) && files[f][m].Body?
  }

  /** f needs g, and g has a body line below an import that leads to f without passing through g. */
  ghost predicate Clash(files: Files, g: string, f: string) {
    g != f && Needs(files, f, g) && Entangled(files, g, f)
  }

  /** Without a clash among the files the root leads to, its join has everything after its imports. */
  lemma JoinImportsFirst(files: Files, root: string)
    requires root in files && JoinFile(files, root, {}, {}).ok
    requires forall g, f :: Reaches(files, root, g) ==> !Clash(files, g, f)
    ensures ImportsFirst(files, JoinFile(files, root, {}, {}).out)
  {
    var out := JoinFile(files, root, {}, {}).out;
    JoinIsOrdered(files, root);
    JoinOutputsEachLineOnce(files, root);
    forall q, k, g | && 0 <= q < |out| && IsLine(files, out[q]) && LineAt(files, out[q]).Body?
                     && 0 <= k < out[q].index && files[out[q].file][k] == Import(Some(g)) && g != out[q].file
      ensures Done(files, g, out[..q])
    {
      var f := out[q].file;
      assert out[q] in out && DirectAt(files, out, q);
      assert Imports(files, f, g);
      ReachesImport(files, root, f, g);
      assert Needs(files, f, g);
      assert !Clash(files, g, f);
    }
  }

  // A clash shows in the join from the file that waits

  /** The state in which the lines of a file up to t have been processed. */
  lemma {:induction false} AdvanceTo(files: Files, name: string, i: nat, t: nat, seen: set<string>,
                                     pragmas: set<string>,
                                     s: seq<Tag>, active: set<string>)
    returns (seen': set<string>, pragmas': set<string>, out: seq<Tag>)
    requires name in files && i <= t <= |files[name]| && JoinLines(files, name, i, seen, pragmas).ok
    requires Ready(files, name, i, seen, s, active)
    ensures Ready(files, name, t, seen', s + out, active)
    ensures JoinLines(files, name, i, seen, pragmas) == Prepend(out, JoinLines(files, name, t, seen', pragmas'))
    decreases t - i
  {
    if i == t {
      seen', pragmas', out := seen, pragmas, [];
      var j := JoinLines(files, name, i, seen, pragmas);
      assert s + [] == s && [] + j.out == j.out;
    } else {
      var seen1, pragmas1, out1 := AdvanceOne(files, name, i, seen, pragmas, s, active);
      var out2;
      seen', pragmas', out2 := AdvanceTo(files, name, i + 1, t, seen1, pragmas1, s + out1, active);
      out := out1 + out2;
      var rest := JoinLines(files, name, t, seen', pragmas').out;
      assert s + out1 + out2 == s + out && out1 + (out2 + rest) == out + rest;
    }
  }

  lemma AdvanceOne(files: Files, name: string, i: nat, seen: set<string>, pragmas: set<string>, s: seq<Tag>,
                   active: set<string>)
    returns (seen': set<string>, pragmas': set<string>, out: seq<Tag>)
    requires name in files && i < |files[name]| && JoinLines(files, name, i, seen, pragmas).ok
    requires Ready(files, name, i, seen, s, active)
    ensures Ready(files, name, i + 1, seen', s + out, active)
    ensures JoinLines(files, name, i, seen, pragmas) == Prepend(out, JoinLines(files, name, i + 1, seen', pragmas'))
  {
    if files[name][i].Import? && files[name][i].target.Some? {
      var target := files[name][i].target.value;
      var imported := JoinFile(files, target, seen, pragmas);
      seen', pragmas', out := imported.seen, imported.pragmas, imported.out;
      if target !in seen {
        AllWait(files, name, i, seen, s, active, target);
      }
      JoinFileOrder(files, target, seen, pragmas, s, active);
      ReadyAfterImport(files, name, i, seen, s, active, imported);
    } else {
      seen', pragmas', out := seen, AfterLine(files[name][i], pragmas), Kept(files, name, i, pragmas);
      ReadyAfterLine(files, name, i, seen, pragmas, s, active);
      var rest := JoinLines(files, name, i + 1, seen', pragmas');
      assert [] + rest.out == rest.out;
    }
  }

  /** While only g is active, what seen files lead to without passing through g is finished. */
  lemma {:induction false} AroundIsFinished(files: Files, seen: set<string>, g: string, p: seq<string>, h: string,
                                            f: string)
    requires Closed(files, seen - {g}, seen) && h in seen && Connects(files, p, h, f) && g !in p
    ensures f in seen - {g}
    decreases |p|
  {
    assert p[0] == h && h != g;
    if |p| > 1 {
      assert Imports(files, p[0], p[1]);
      forall i | 0 <= i < |p| - 2
        ensures Imports(files, p[1..][i], p[1..][i + 1])
      {
        assert Imports(files, p[i + 1], p[i + 2]);
      }
      AroundIsFinished(files, seen, g, p[1..], p[1], f);
    }
  }

  /** The join from g, cut after its import in line j: all that the import leads to without passing through g is out,
      the body lines of g below are not. */
  lemma CutAfterImport(files: Files, g: string, j: nat, h: string, f: string) returns (front: seq<Tag>)
    requires g in files && JoinFile(files, g, {}, {}).ok
    requires j < |files[g]| && files[g][j] == Import(Some(h)) && LeadsAround(files, g, h, f)
    ensures front <= JoinFile(files, g, {}, {}).out && Done(files, f, front)
    ensures forall n :: j < n < |files[g]| && files[g][n].Body? ==> Tag(g, n) !in front
  {
    var out := JoinFile(files, g, {}, {}).out;
    assert {} + {g} == {g} && {g} - {g} == {};
    assert Ready(files, g, 0, {g}, [], {g});
    var seen, pragmas;
    seen, pragmas, front := AdvanceTo(files, g, 0, j + 1, {g}, {}, [], {g});
    assert [] + front == front;
    var p :| Connects(files, p, h, f) && g !in p;
    AroundIsFinished(files, seen, g, p, h, f);
    var rest := JoinLines(files, g, j + 1, seen, pragmas);
    assert out == front + rest.out;
    JoinLinesCovers(files, g, j + 1, seen, pragmas);
    JoinFileCovers(files, g, {}, {});
    forall n | j < n < |files[g]| && files[g][n].Body?
      ensures Tag(g, n) !in front
    {
      assert Tag(g, n) in LinesFrom(files, g, j + 1);
      OnceInFrontOrRest(front, rest.out, Tag(g, n));
    }
  }

  lemma OnceInFrontOrRest(front: seq<Tag>, rest: seq<Tag>, t: Tag)
    requires forall p, q :: 0 <= p < q < |front + rest| ==> (front + rest)[p] != (front + rest)[q]
    requires t in rest
    ensures t !in front
  {
    var q :| 0 <= q < |rest| && rest[q] == t;
    assert (front + rest)[|front| + q] == t;
    forall p | 0 <= p < |front|
      ensures front[p] != t
    {
      assert (front + rest)[p] == front[p];
    }
  }

  /** If f and g clash, the join from g has a body line of f before a body line of g that it needs. */
  lemma ClashBreaksTheOrder(files: Files, g: string, f: string)
    requires g in files && JoinFile(files, g, {}, {}).ok && Clash(files, g, f)
    ensures !ImportsFirst(files, JoinFile(files, g, {}, {}).out)
  {
    var out := JoinFile(files, g, {}, {}).out;
    var j, n, h :| && 0 <= j < n < |files[g]| && files[g][n].Body?
                   && files[g][j] == Import(Some(h)) && LeadsAround(files, g, h, f);
    var front := CutAfterImport(files, g, j, h, f);
    var k, m :| 0 <= k < m < |files[f]| && files[f][k] == Import(Some(g)) && files[f][m].Body?;
    assert Tag(f, m) in front;
    var q :| 0 <= q < |front| && front[q] == Tag(f, m);
    assert out[q] == Tag(f, m);
    assert !Done(files, g, out[..q]) by {
      assert Tag(g, n) !in front && forall t :: t in out[..q] ==> t in front;
    }
    assert IsLine(files, out[q]) && files[out[q].file][k] == Import(Some(g));
  }

  /** The join from r succeeds and has every body line after what its file imports above it. */
  ghost predicate JoinsInOrder(files: Files, r: string) {
    r in files && JoinFile(files, r, {}, {}).ok && ImportsFirst(files, JoinFile(files, r, {}, {}).out)
  }

  /** The joins from the root and from all files it leads to are in order if and only if no two of these files clash. */
  lemma ImportsComeFirstIff(files: Files, root: string)
    requires root in files && JoinFile(files, root, {}, {}).ok
    ensures (forall r :: Reaches(files, root, r) ==> JoinsInOrder(files, r))
            <==> (forall g, f :: Reaches(files, root, g) ==> !Clash(files, g, f))
  {
    forall r | Reaches(files, root, r)
      ensures r in files && JoinFile(files, r, {}, {}).ok
    {
      ReachedJoins(files, root, r);
    }
    if forall r :: Reaches(files, root, r) ==> JoinsInOrder(files, r) {
      forall g, f | Reaches(files, root, g)
        ensures !Clash(files, g, f)
      {
        if Clash(files, g, f) {
          ClashBreaksTheOrder(files, g, f);
        }
      }
    }
    if forall g, f :: Reaches(files, root, g) ==> !Clash(files, g, f) {
      forall r | Reaches(files, root, r)
        ensures JoinsInOrder(files, r)
      {
        forall g | Reaches(files, r, g) {
          ReachesTrans(files, root, r, g);
        }
        JoinImportsFirst(files, r);
      }
    }
  }

  /** What a root that can be joined leads to can be joined. */
  lemma ReachedJoins(files: Files, root: string, r: string)
    requires root in files && JoinFile(files, root, {}, {}).ok && Reaches(files, root, r)
    ensures r in files && JoinFile(files, r, {}, {}).ok
  {
    JoinMarksReachable(files, root);
    JoinMarksReachable(files, r);
    forall g | Reaches(files, r, g) {
      ReachesTrans(files, root, r, g);
    }
  }

  /** Every join that succeeds is in order if and only if no file that can be joined clashes with another. */
  lemma AllJoinsInOrderIff(files: Files)
    ensures (forall r :: r in files && JoinFile(files, r, {}, {}).ok ==> JoinsInOrder(files, r))
            <==> (forall g, f :: g in files && JoinFile(files, g, {}, {}).ok ==> !Clash(files, g, f))
  {
    if forall r :: r in files && JoinFile(files, r, {}, {}).ok ==> JoinsInOrder(files, r) {
      forall g, f | g in files && JoinFile(files, g, {}, {}).ok
        ensures !Clash(files, g, f)
      {
        if Clash(files, g, f) {
          ClashBreaksTheOrder(files, g, f);
        }
      }
    }
    if forall g, f :: g in files && JoinFile(files, g, {}, {}).ok ==> !Clash(files, g, f) {
      forall r | r in files && JoinFile(files, r, {}, {}).ok
        ensures JoinsInOrder(files, r)
      {
        forall g | Reaches(files, r, g) {
          ReachedJoins(files, r, g);
        }
        JoinImportsFirst(files, r);
      }
    }
  }

  // Without cycles

  /** No file the root leads to is in a cycle of imports. */
  ghost predicate Acyclic(files: Files, root: string) {
    forall f, g :: Reaches(files, root, f) && Imports(files, f, g) ==> !Reaches(files, g, f)
  }

  /** Without cycles among the files the root leads to, every output line is in order, pragmas included. */
  lemma ImportsComeFirst(files: Files, root: string)
    requires Acyclic(files, root) && root in files && JoinFile(files, root, {}, {}).ok
    ensures var out := JoinFile(files, root, {}, {}).out;
            forall q :: 0 <= q < |out| ==> OrderedAt(files, out, q)
  {
    var out := JoinFile(files, root, {}, {}).out;
    JoinIsOrdered(files, root);
    JoinOutputsEachLineOnce(files, root);
    forall q | 0 <= q < |out|
      ensures OrderedAt(files, out, q)
    {
      assert out[q] in out;
    }
  }

  /** Not so with a cycle: b's body line is printed although the file a it imports is not out yet. */
  lemma CyclesBreakTheOrder()
    ensures var files := map["a" := [Import(Some("b")), Body("x")], "b" := [Import(Some("a")), Body("y")]];
            && JoinFile(files, "a", {}, {}).ok
            && JoinFile(files, "a", {}, {}).out == [Tag("b", 1), Tag("a", 1)]
            && !ImportsFirst(files, JoinFile(files, "a", {}, {}).out)
  {
    var files := map["a" := [Import(Some("b")), Body("x")], "b" := [Import(Some("a")), Body("y")]];
    var ab := {"a"} + {"b"};
    assert JoinLines(files, "b", 2, ab, {}) == Joined(true, ab, {}, []);
    assert JoinLines(files, "b", 1, ab, {}).out == [Tag("b", 1)];
    assert JoinFile(files, "a", ab, {}) == Joined(true, ab, {}, []);
    assert JoinLines(files, "b", 0, ab, {}) == Joined(true, ab, {}, [Tag("b", 1)]);
    assert JoinFile(files, "b", {"a"}, {}) == Joined(true, ab, {}, [Tag("b", 1)]);
    assert JoinLines(files, "a", 2, ab, {}) == Joined(true, ab, {}, []);
    assert JoinLines(files, "a", 1, ab, {}) == Joined(true, ab, {}, [Tag("a", 1)]);
    assert JoinLines(files, "a", 0, {"a"}, {}) == Joined(true, ab, {}, [Tag("b", 1), Tag("a", 1)]);
    assert {} + {"a"} == {"a"};
    var out := JoinFile(files, "a", {}, {}).out;
    assert out == [Tag("b", 1), Tag("a", 1)];
    assert !Done(files, "a", out[..0]) by {
      assert files["a"][1].Body? && Tag("a", 1) !in out[..0];
    }
    assert out[0] == Tag("b", 1) && files["b"][0] == Import(Some("a"));
  }
}
