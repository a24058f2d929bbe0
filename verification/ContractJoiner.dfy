/** Flattening Solidity files by following their imports depth first. Import graphs may be cyclic. */
module ContractJoiner {
  import opened Collections
  import opened Wrappers

  /** A source line as the joiner classifies it: pragma or licence, import (of a resolved file, or one that
      does not match the import syntax and is dropped), or anything else. */
  datatype Line = Pragma(text: string) | Import(target: Option<string>) | Body(text: string)

  type Files = map<string, seq<Line>>

  /** The origin of an output line. */
  datatype Tag = Tag(file: string, index: nat)

  predicate IsLine(files: Files, t: Tag) { t.file in files && t.index < |files[t.file]| }

  function LineAt(files: Files, t: Tag): Line
    requires IsLine(files, t)
  {
    files[t.file][t.index]
  }

  /** The outcome of a join: the files and pragmas seen so far, and the origins of the lines produced.
      It is not ok when an imported file does not exist. */
  datatype Joined = Joined(ok: bool, seen: set<string>, pragmas: set<string>, out: seq<Tag>)

  function Prepend(out: seq<Tag>, j: Joined): Joined { j.(out := out + j.out) }

  function JoinFile(files: Files, name: string, seen: set<string>, pragmas: set<string>): (j: Joined)
    requires name in files
    ensures seen <= j.seen && pragmas <= j.pragmas
    decreases |files.Keys - seen|, 0
  {
    if name in seen then Joined(true, seen, pragmas, [])
    else
      assert files.Keys - (seen + {name}) < files.Keys - seen;
      SmallerSet(files.Keys - (seen + {name}), files.Keys - seen);
      JoinLines(files, name, 0, seen + {name}, pragmas)
  }

  /** Lines i and later of a file. */
  function JoinLines(files: Files, name: string, i: nat, seen: set<string>, pragmas: set<string>): (j: Joined)
    requires name in files && i <= |files[name]|
    ensures seen <= j.seen && pragmas <= j.pragmas
    decreases |files.Keys - seen|, 1 + |files[name]| - i
  {
    if i == |files[name]| then Joined(true, seen, pragmas, [])
    else
      match files[name][i]
      case Body(_) => Prepend([Tag(name, i)], JoinLines(files, name, i + 1, seen, pragmas))
      case Pragma(text) =>
        if text in pragmas then JoinLines(files, name, i + 1, seen, pragmas)
        else Prepend([Tag(name, i)], JoinLines(files, name, i + 1, seen, pragmas + {text}))
      case Import(None) => JoinLines(files, name, i + 1, seen, pragmas)
      case Import(Some(target)) =>
        if target !in files then Joined(false, seen, pragmas, [])
        else
          var j := JoinFile(files, target, seen, pragmas);
          if !j.ok then j
          else
            SmallerOrEqualSet(files.Keys - j.seen, files.Keys - seen);
            Prepend(j.out, JoinLines(files, name, i + 1, j.seen, j.pragmas))
  }

  // What is produced, and that it is produced once

  /** out holds each body line of the region once, and one line for each pragma of the region that is not in
      before; after is before with the pragmas of the region. */
  ghost predicate Covers(files: Files, region: set<Tag>, out: seq<Tag>, before: set<string>, after: set<string>) {
    && (forall t :: t in region ==> IsLine(files, t))
    && (forall p, q :: 0 <= p < q < |out| ==> out[p] != out[q])
    && (forall t :: t in out ==> t in region && !LineAt(files, t).Import?)
    && (forall t :: t in region && LineAt(files, t).Body? ==> t in out)
    && (forall t :: t in region && LineAt(files, t).Pragma? ==> LineAt(files, t).text in after)
    && before <= after
    && (forall x :: x in after - before ==> exists t :: t in out && LineAt(files, t) == Pragma(x))
    && (forall t :: t in out && LineAt(files, t).Pragma? ==> LineAt(files, t).text in after - before)
    && (forall t, t' :: t in out && t' in out && LineAt(files, t).Pragma? && LineAt(files, t) == LineAt(files, t') ==> t == t')
  }

  lemma CoversEmpty(files: Files, pragmas: set<string>)
    ensures Covers(files, {}, [], pragmas, pragmas)
  {
  }

  lemma CoversBoth(files: Files, r1: set<Tag>, o1: seq<Tag>, r2: set<Tag>, o2: seq<Tag>, p0: set<string>,
                   p1: set<string>, p2: set<string>)
    requires Covers(files, r1, o1, p0, p1) && Covers(files, r2, o2, p1, p2) && r1 !! r2
    ensures Covers(files, r1 + r2, o1 + o2, p0, p2)
  {
    var out := o1 + o2;
    assert forall t :: t in out <==> t in o1 || t in o2;
    forall p, q | 0 <= p < q < |out|
      ensures out[p] != out[q]
    {
      if p < |o1| <= q {
        assert out[p] in o1 && out[q] in o2;
      }
    }
    forall x | x in p2 - p0
      ensures exists t :: t in out && LineAt(files, t) == Pragma(x)
    {
      if x in p1 {
        assert x in p1 - p0;
        var t :| t in o1 && LineAt(files, t) == Pragma(x);
        assert t in out;
      } else {
        assert x in p2 - p1;
        var t :| t in o2 && LineAt(files, t) == Pragma(x);
        assert t in out;
      }
    }
  }

  /** All lines of the given files. */
  ghost function LinesOf(files: Files, names: set<string>): set<Tag> {
    set f, m | f in names && f in files && 0 <= m < |files[f]| :: Tag(f, m)
  }

  /** Lines i and later of a file. */
  ghost function LinesFrom(files: Files, name: string, i: nat): set<Tag>
    requires name in files
  {
    set m | i <= m < |files[name]| :: Tag(name, m)
  }

  lemma LinesOfSplit(files: Files, a: set<string>, b: set<string>)
    requires a !! b
    ensures LinesOf(files, a + b) == LinesOf(files, a) + LinesOf(files, b)
    ensures LinesOf(files, a) !! LinesOf(files, b)
  {
  }

  lemma {:induction false} JoinFileCovers(files: Files, name: string, seen: set<string>, pragmas: set<string>)
    requires name in files && JoinFile(files, name, seen, pragmas).ok
    ensures var j := JoinFile(files, name, seen, pragmas);
            Covers(files, LinesOf(files, j.seen - seen), j.out, pragmas, j.pragmas)
    decreases |files.Keys - seen|, 0
  {
    var j := JoinFile(files, name, seen, pragmas);
    if name in seen {
      assert LinesOf(files, j.seen - seen) == {};
      CoversEmpty(files, pragmas);
    } else {
      SmallerSet(files.Keys - (seen + {name}), files.Keys - seen);
      JoinLinesCovers(files, name, 0, seen + {name}, pragmas);
      assert j.seen - seen == {name} + (j.seen - (seen + {name}));
      LinesOfSplit(files, {name}, j.seen - (seen + {name}));
      assert LinesOf(files, {name}) == LinesFrom(files, name, 0);
    }
  }

  lemma {:induction false} JoinLinesCovers(files: Files, name: string, i: nat, seen: set<string>, pragmas: set<string>)
    requires name in files && i <= |files[name]| && name in seen
    requires JoinLines(files, name, i, seen, pragmas).ok
    ensures var j := JoinLines(files, name, i, seen, pragmas);
            Covers(files, LinesFrom(files, name, i) + LinesOf(files, j.seen - seen), j.out, pragmas, j.pragmas)
    decreases |files.Keys - seen|, 1 + |files[name]| - i
  {
    if i == |files[name]| {
      assert LinesFrom(files, name, i) + LinesOf(files, seen - seen) == {};
      CoversEmpty(files, pragmas);
    } else if files[name][i].Import? && files[name][i].target.Some? {
      var imported := JoinFile(files, files[name][i].target.value, seen, pragmas);
      JoinFileCovers(files, files[name][i].target.value, seen, pragmas);
      SmallerOrEqualSet(files.Keys - imported.seen, files.Keys - seen);
      JoinLinesCovers(files, name, i + 1, imported.seen, imported.pragmas);
      var rest := JoinLines(files, name, i + 1, imported.seen, imported.pragmas);
      ImportThenRest(files, name, i, seen, pragmas, imported, rest);
    } else {
      var kept, after := Kept(files, name, i, pragmas), AfterLine(files[name][i], pragmas);
      OneLineCovers(files, name, i, pragmas);
      JoinLinesCovers(files, name, i + 1, seen, after);
      var rest := JoinLines(files, name, i + 1, seen, after);
      LineThenRest(files, name, i, kept, pragmas, after, rest.seen - seen, rest.out, rest.pragmas);
      assert [] + rest.out == rest.out;
    }
  }

  function AfterLine(line: Line, pragmas: set<string>): (after: set<string>)
    ensures line.Pragma? && line.text in pragmas ==> after == pragmas
  {
    if line.Pragma? then pragmas + {line.text} else pragmas
  }

  function Kept(files: Files, name: string, i: nat, pragmas: set<string>): seq<Tag>
    requires name in files && i < |files[name]|
  {
    var line := files[name][i];
    if line.Body? || (line.Pragma? && line.text !in pragmas) then [Tag(name, i)] else []
  }

  /** A single line that imports nothing. */
  lemma OneLineCovers(files: Files, name: string, i: nat, pragmas: set<string>)
    requires name in files && i < |files[name]|
    ensures Covers(files, {Tag(name, i)}, Kept(files, name, i, pragmas), pragmas, AfterLine(files[name][i], pragmas))
  {
    var line := files[name][i];
    if line.Pragma? && line.text !in pragmas {
      assert Tag(name, i) in Kept(files, name, i, pragmas);
    }
  }

  /** A line that is kept, or skipped as a pragma already seen or an unresolved import. */
  lemma LineThenRest(files: Files, name: string, i: nat, kept: seq<Tag>, before: set<string>, after: set<string>,
                     others: set<string>, out: seq<Tag>, pragmas: set<string>)
    requires name in files && i < |files[name]| && name !in others
    requires Covers(files, {Tag(name, i)}, kept, before, after)
    requires Covers(files, LinesFrom(files, name, i + 1) + LinesOf(files, others), out, after, pragmas)
    ensures Covers(files, LinesFrom(files, name, i) + LinesOf(files, others), kept + out, before, pragmas)
  {
    var rest := LinesFrom(files, name, i + 1) + LinesOf(files, others);
    CoversBoth(files, {Tag(name, i)}, kept, rest, out, before, after, pragmas);
    LinesFromHere(files, name, i);
    assert {Tag(name, i)} + rest == LinesFrom(files, name, i) + LinesOf(files, others);
  }

  lemma LinesFromHere(files: Files, name: string, i: nat)
    requires name in files && i < |files[name]|
    ensures LinesFrom(files, name, i) == {Tag(name, i)} + LinesFrom(files, name, i + 1)
  {
  }

  lemma ImportThenRest(files: Files, name: string, i: nat, seen: set<string>, pragmas: set<string>, imported: Joined,
                       rest: Joined)
    requires name in files && i < |files[name]| && name in seen && files[name][i].Import?
    requires seen <= imported.seen <= rest.seen
    requires Covers(files, LinesOf(files, imported.seen - seen), imported.out, pragmas, imported.pragmas)
    requires Covers(files, LinesFrom(files, name, i + 1) + LinesOf(files, rest.seen - imported.seen), rest.out, imported.pragmas, rest.pragmas)
    ensures Covers(files, LinesFrom(files, name, i) + LinesOf(files, rest.seen - seen), imported.out + rest.out, pragmas, rest.pragmas)
  {
    var first, last := imported.seen - seen, rest.seen - imported.seen;
    var tail := LinesFrom(files, name, i + 1) + LinesOf(files, last);
    CoversBoth(files, LinesOf(files, first), imported.out, tail, rest.out, pragmas, imported.pragmas, rest.pragmas);
    assert rest.seen - seen == first + last;
    LinesOfSplit(files, first, last);
    assert LinesOf(files, first) + tail == LinesFrom(files, name, i + 1) + LinesOf(files, rest.seen - seen);
    OneLineCovers(files, name, i, pragmas);
    LineThenRest(files, name, i, [], pragmas, pragmas, rest.seen - seen, imported.out + rest.out, rest.pragmas);
    assert [] + (imported.out + rest.out) == imported.out + rest.out;
  }
}
