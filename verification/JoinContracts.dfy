/** The joiner itself: one object whose sets of seen files and pragmas grow during the recursion. */
module JoinContracts {
  import opened Collections
  import opened Wrappers
  import opened ContractJoiner
  import opened ImportLines

  function TextOf(files: Files, t: Tag): string {
    if IsLine(files, t) && !LineAt(files, t).Import? then LineAt(files, t).text else ""
  }

  function Texts(files: Files, out: seq<Tag>): seq<string> {
    seq(|out|, i requires 0 <= i < |out| => TextOf(files, out[i]))
  }

  class Joiner {
    /** The files on disk, their lines classified. */
    const files: Files
    var seenPragmas: set<string>
    var seenContracts: set<string>

    constructor (sources: map<string, seq<string>>, importMap: seq<Mapping>)
      ensures files == ClassifyAll(sources, importMap) && seenPragmas == {} && seenContracts == {}
    {
      files := ClassifyAll(sources, importMap);
      seenPragmas, seenContracts := {}, {};
    }

    /** The lines of an open file with its imports spliced in; fails when an imported file cannot be opened. */
    method Join(name: string) returns (r: Result<seq<string>, string>)
      requires name in files
      modifies this
      ensures var j := JoinFile(files, name, old(seenContracts), old(seenPragmas));
              && seenContracts == j.seen && seenPragmas == j.pragmas
              && (r.Ok? <==> j.ok)
              && (r.Ok? ==> r.value == Texts(files, j.out))
      decreases |files.Keys - seenContracts|, 0
    {
      var out: seq<string> := [];
      if name in seenContracts {
        return Ok(out);
      }
      seenContracts := seenContracts + {name};
      ghost var whole := JoinLines(files, name, 0, seenContracts, seenPragmas);
      ghost var tags := [];
      for i := 0 to |files[name]|
        invariant old(seenContracts) + {name} <= seenContracts
        invariant out == Texts(files, tags)
        invariant Prepend(tags, JoinLines(files, name, i, seenContracts, seenPragmas)) == whole
      {
        FewerLeft(files, old(seenContracts), seenContracts, name);
        var added, more, missing := OnLine(name, i);
        if missing.Some? {
          return Err(missing.value);
        }
        TextsAppend(files, tags, more);
        PrependTwice(tags, more, JoinLines(files, name, i + 1, seenContracts, seenPragmas));
        out, tags := out + added, tags + more;
      }
      assert tags + [] == tags;
      return Ok(out);
    }

    /** One line: kept, dropped, or replaced by the file it imports. */
    method OnLine(name: string, i: nat) returns (added: seq<string>, ghost tags: seq<Tag>, missing: Option<string>)
      requires name in files && i < |files[name]|
      modifies this
      ensures old(seenContracts) <= seenContracts
      ensures var j := JoinLines(files, name, i, old(seenContracts), old(seenPragmas));
              if missing.Some? then !j.ok && seenContracts == j.seen && seenPragmas == j.pragmas
              else added == Texts(files, tags) && j == Prepend(tags, JoinLines(files, name, i + 1, seenContracts, seenPragmas))
      decreases |files.Keys - seenContracts|, 1
    {
      added, tags, missing := [], [], None;
      match files[name][i] {
        case Pragma(text) =>
          if text !in seenPragmas {
            seenPragmas := seenPragmas + {text};
            added, tags := [text], [Tag(name, i)];
          } else {
            PrependNothing(JoinLines(files, name, i + 1, seenContracts, seenPragmas));
          }
        case Import(target) =>
          if target.Some? {
            if target.value !in files {
              return [], [], target;
            }
            tags := JoinFile(files, target.value, seenContracts, seenPragmas).out;
            var imported := Join(target.value);
            if imported.Err? {
              return [], [], Some(imported.error);
            }
            added := imported.value;
          } else {
            PrependNothing(JoinLines(files, name, i + 1, seenContracts, seenPragmas));
          }
        case Body(text) =>
          added, tags := [text], [Tag(name, i)];
      }
    }
  }

  lemma FewerLeft(files: Files, before: set<string>, now: set<string>, name: string)
    requires name in files && name !in before && before + {name} <= now
    ensures |files.Keys - now| < |files.Keys - before|
  {
    assert files.Keys - now <= files.Keys - before - {name};
    SmallerOrEqualSet(files.Keys - now, files.Keys - before - {name});
  }

  lemma PrependNothing(j: Joined)
    ensures Prepend([], j) == j
  {
    assert [] + j.out == j.out;
  }

  lemma PrependTwice(a: seq<Tag>, b: seq<Tag>, j: Joined)
    ensures Prepend(a, Prepend(b, j)) == Prepend(a + b, j)
  {
    assert a + (b + j.out) == a + b + j.out;
  }

  lemma TextsAppend(files: Files, a: seq<Tag>, b: seq<Tag>)
    ensures Texts(files, a + b) == Texts(files, a) + Texts(files, b)
  {
  }
}
