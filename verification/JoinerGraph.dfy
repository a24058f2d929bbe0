/** Which files a join visits, when it fails, and what it outputs. */
module JoinerGraph {
  import opened Collections
  import opened Wrappers
  import opened ContractJoiner

  ghost predicate Imports(files: Files, f: string, g: string) { f in files && Import(Some(g)) in files[f] }

  ghost predicate Path(files: Files, p: seq<string>) {
    |p| > 0 && forall i :: 0 <= i < |p| - 1 ==> Imports(files, p[i], p[i + 1])
  }

  ghost predicate Connects(files: Files, p: seq<string>, f: string, g: string) {
    Path(files, p) && p[0] == f && p[|p| - 1] == g
  }

  /** g is f or is imported by it directly or indirectly. */
  ghost predicate Reaches(files: Files, f: string, g: string) { exists p :: Connects(files, p, f, g) }

  lemma ReachesSelf(files: Files, f: string)
    ensures Reaches(files, f, f)
  {
    assert Connects(files, [f], f, f);
  }

  lemma ImportReaches(files: Files, f: string, g: string, h: string)
    requires Imports(files, f, g) && Reaches(files, g, h)
    ensures Reaches(files, f, h)
  {
    var p :| Connects(files, p, g, h);
    var q := [f] + p;
    forall i | 0 <= i < |q| - 1
      ensures Imports(files, q[i], q[i + 1])
    {
      if i > 0 { assert Imports(files, p[i - 1], p[i]); }
    }
    assert Connects(files, q, f, h);
  }

  lemma ReachesImport(files: Files, f: string, g: string, h: string)
    requires Reaches(files, f, g) && Imports(files, g, h)
    ensures Reaches(files, f, h)
  {
    var p :| Connects(files, p, f, g);
    assert Connects(files, p + [h], f, h);
  }

  lemma ReachesTrans(files: Files, f: string, g: string, h: string)
    requires Reaches(files, f, g) && Reaches(files, g, h)
    ensures Reaches(files, f, h)
  {
    var p :| Connects(files, p, f, g);
    var q :| Connects(files, q, g, h);
    var both := p + q[1..];
    forall i | 0 <= i < |both| - 1
      ensures Imports(files, both[i], both[i + 1])
    {
      if i < |p| - 1 {
        assert Imports(files, p[i], p[i + 1]);
      } else {
        assert Imports(files, q[i - |p| + 1], q[i - |p| + 2]);
      }
    }
    assert Connects(files, both, f, h);
  }

  // Files visited

  /** Everything a join adds is reachable from the file it starts with, and it fails only on a missing file. */
  lemma {:induction false} JoinFileVisitsReachable(files: Files, name: string, seen: set<string>, pragmas: set<string>)
    requires name in files
    ensures var j := JoinFile(files, name, seen, pragmas);
            && (forall f :: f in j.seen - seen ==> f in files && Reaches(files, name, f))
            && (!j.ok ==> exists f :: Reaches(files, name, f) && f !in files)
    decreases |files.Keys - seen|, 0
  {
    if name !in seen {
      SmallerSet(files.Keys - (seen + {name}), files.Keys - seen);
      JoinLinesVisitsReachable(files, name, 0, seen + {name}, pragmas);
      ReachesSelf(files, name);
    }
  }

  lemma {:induction false} JoinLinesVisitsReachable(files: Files, name: string, i: nat, seen: set<string>,
                                                    pragmas: set<string>)
    requires name in files && i <= |files[name]|
    ensures var j := JoinLines(files, name, i, seen, pragmas);
            && (forall f :: f in j.seen - seen ==> f in files && Reaches(files, name, f))
            && (!j.ok ==> exists f :: Reaches(files, name, f) && f !in files)
    decreases |files.Keys - seen|, 1 + |files[name]| - i
  {
    if i < |files[name]| {
      if files[name][i].Import? && files[name][i].target.Some? {
        var target := files[name][i].target.value;
        ReachesSelf(files, target);
        ImportReaches(files, name, target, target);
        if target in files {
          ImportVisitsReachable(files, name, i, seen, pragmas);
        }
      } else {
        JoinLinesVisitsReachable(files, name, i + 1, seen, AfterLine(files[name][i], pragmas));
      }
    }
  }

  lemma {:induction false} ImportVisitsReachable(files: Files, name: string, i: nat, seen: set<string>,
                                                 pragmas: set<string>)
    requires name in files && i < |files[name]| && files[name][i].Import? && files[name][i].target.Some?
    requires files[name][i].target.value in files
    ensures var j := JoinLines(files, name, i, seen, pragmas);
            && (forall f :: f in j.seen - seen ==> f in files && Reaches(files, name, f))
            && (!j.ok ==> exists f :: Reaches(files, name, f) && f !in files)
    decreases |files.Keys - seen|, 1 + |files[name]| - i, 0
  {
    var target := files[name][i].target.value;
    var imported := JoinFile(files, target, seen, pragmas);
    JoinFileVisitsReachable(files, target, seen, pragmas);
    forall f | Reaches(files, target, f) {
      ImportReaches(files, name, target, f);
    }
    if imported.ok {
      SmallerOrEqualSet(files.Keys - imported.seen, files.Keys - seen);
      JoinLinesVisitsReachable(files, name, i + 1, imported.seen, imported.pragmas);
    }
  }

  /** Imports of the given files lead to seen files only. */
  ghost predicate Closed(files: Files, names: set<string>, seen: set<string>) {
    forall f, g :: f in names && Imports(files, f, g) ==> g in seen
  }

  lemma {:induction false} JoinFileCloses(files: Files, name: string, seen: set<string>, pragmas: set<string>)
    requires name in files && JoinFile(files, name, seen, pragmas).ok
    ensures var j := JoinFile(files, name, seen, pragmas);
            name in j.seen && Closed(files, j.seen - seen, j.seen)
    decreases |files.Keys - seen|, 0
  {
    if name !in seen {
      SmallerSet(files.Keys - (seen + {name}), files.Keys - seen);
      JoinLinesCloses(files, name, 0, seen + {name}, pragmas);
    }
  }

  lemma {:induction false} JoinLinesCloses(files: Files, name: string, i: nat, seen: set<string>, pragmas: set<string>)
    requires name in files && i <= |files[name]| && JoinLines(files, name, i, seen, pragmas).ok
    ensures var j := JoinLines(files, name, i, seen, pragmas);
            && (forall k, g :: i <= k < |files[name]| && files[name][k] == Import(Some(g)) ==> g in j.seen)
            && Closed(files, j.seen - seen, j.seen)
    decreases |files.Keys - seen|, 1 + |files[name]| - i
  {
    if i < |files[name]| {
      if files[name][i].Import? && files[name][i].target.Some? {
        var target := files[name][i].target.value;
        var imported := JoinFile(files, target, seen, pragmas);
        JoinFileCloses(files, target, seen, pragmas);
        SmallerOrEqualSet(files.Keys - imported.seen, files.Keys - seen);
        JoinLinesCloses(files, name, i + 1, imported.seen, imported.pragmas);
      } else {
        JoinLinesCloses(files, name, i + 1, seen, AfterLine(files[name][i], pragmas));
      }
    }
  }

  lemma {:induction false} ClosedHasReachable(files: Files, seen: set<string>, p: seq<string>, f: string, g: string)
    requires f in seen && Closed(files, seen, seen) && Connects(files, p, f, g)
    ensures g in seen
    decreases |p|
  {
    if |p| > 1 {
      var shorter := p[..|p| - 1];
      assert Connects(files, shorter, f, p[|p| - 2]);
      ClosedHasReachable(files, seen, shorter, f, p[|p| - 2]);
      assert Imports(files, p[|p| - 2], p[|p| - 1]);
    }
  }

  /** Joining from a fresh joiner succeeds if and only if every file reachable from the root exists, and then
      marks exactly the reachable files, whether or not imports are cyclic. */
  lemma JoinMarksReachable(files: Files, root: string)
    requires root in files
    ensures var j := JoinFile(files, root, {}, {});
            && (j.ok <==> forall f :: Reaches(files, root, f) ==> f in files)
            && (j.ok ==> forall f :: f in j.seen <==> Reaches(files, root, f))
  {
    var j := JoinFile(files, root, {}, {});
    JoinFileVisitsReachable(files, root, {}, {});
    if j.ok {
      JoinFileCloses(files, root, {}, {});
      assert j.seen - {} == j.seen;
      forall f | Reaches(files, root, f)
        ensures f in j.seen && f in files
      {
        var p :| Connects(files, p, root, f);
        ClosedHasReachable(files, j.seen, p, root, f);
        assert f in j.seen - {};
      }
      forall f | f in j.seen
        ensures Reaches(files, root, f)
      {
        assert f in j.seen - {};
      }
    }
  }

  /** The output of a successful join is each body line of every reachable file once and each distinct pragma
      line of these files once. */
  lemma JoinOutputsEachLineOnce(files: Files, root: string)
    requires root in files && JoinFile(files, root, {}, {}).ok
    ensures var j := JoinFile(files, root, {}, {});
            && (forall p, q :: 0 <= p < q < |j.out| ==> j.out[p] != j.out[q])
            && (forall t :: t in j.out ==> IsLine(files, t) && Reaches(files, root, t.file) && !LineAt(files, t).Import?)
            && (forall t :: IsLine(files, t) && LineAt(files, t).Body? ==> (t in j.out <==> Reaches(files, root, t.file)))
            && (forall t :: IsLine(files, t) && Reaches(files, root, t.file) && LineAt(files, t).Pragma? ==>
                  exists t' :: t' in j.out && LineAt(files, t') == LineAt(files, t))
            && (forall t, t' :: t in j.out && t' in j.out && LineAt(files, t).Pragma? && LineAt(files, t) == LineAt(files, t') ==> t == t')
  {
    var j := JoinFile(files, root, {}, {});
    JoinMarksReachable(files, root);
    JoinFileCovers(files, root, {}, {});
    assert j.seen - {} == j.seen && j.pragmas - {} == j.pragmas;
    forall t | IsLine(files, t) && Reaches(files, root, t.file)
      ensures t in LinesOf(files, j.seen)
    {
      assert t == Tag(t.file, t.index);
    }
    forall t | IsLine(files, t) && Reaches(files, root, t.file) && LineAt(files, t).Pragma?
      ensures exists t' :: t' in j.out && LineAt(files, t') == LineAt(files, t)
    {
      assert LineAt(files, t).text in j.pragmas - {};
    }
  }
}
