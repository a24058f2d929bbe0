/** Joining files on disk: what the output is, in terms of the raw lines. */
module JoinedSources {
  import opened Collections
  import opened Wrappers
  import opened ContractJoiner
  import opened JoinerGraph
  import opened ImportLines
  import opened JoinContracts

  type Sources = map<string, seq<string>>

  /** Pragmas and licence lines are kept once. */
  predicate IsOnce(line: string) {
    var stripped := StripSpace(line);
    "pragma" <= stripped || "// SPDX-License-Identifier: MIT" <= stripped
  }

  predicate IsImport(line: string) { "import" <= StripSpace(line) }

  predicate IsRawLine(sources: Sources, t: Tag) { t.file in sources && t.index < |sources[t.file]| }

  /** A line without its line end. */
  function RawText(sources: Sources, t: Tag): string
    requires IsRawLine(sources, t)
  {
    StripNewline(sources[t.file][t.index])
  }

  predicate EndsLine(c: char) { c == '\r' || c == '\n' }

  /** The text is the raw line without the line ends on either side of it. */
  ghost predicate WithoutLineEnds(raw: string, text: string) {
    && (exists left, right :: raw == left + text + right && forall c :: c in left + right ==> EndsLine(c))
    && (text != [] ==> !EndsLine(text[0]) && !EndsLine(text[|text| - 1]))
  }

  lemma LineEndsGo(raw: string)
    ensures WithoutLineEnds(raw, StripNewline(raw))
  {
    var left, right := StripTakesBothEnds(raw, c => c == '\r' || c == '\n');
    assert raw == left + StripNewline(raw) + right;
    assert forall c :: c in left + right ==> EndsLine(c);
  }

  /** The line has the import syntax for a name that the import map turns into g. */
  ghost predicate RawImport(raw: string, importMap: seq<Mapping>, g: string) {
    exists name :: ImportSyntax(StripSpace(StripNewline(raw)), name) && g == ResolveName(name, importMap)
  }

  ghost predicate RawImports(sources: Sources, importMap: seq<Mapping>, f: string, g: string) {
    f in sources && exists i :: 0 <= i < |sources[f]| && RawImport(sources[f][i], importMap, g)
  }

  ghost predicate RawConnects(sources: Sources, importMap: seq<Mapping>, p: seq<string>, f: string, g: string) {
    && |p| > 0 && p[0] == f && p[|p| - 1] == g
    && forall i :: 0 <= i < |p| - 1 ==> RawImports(sources, importMap, p[i], p[i + 1])
  }

  ghost predicate RawReaches(sources: Sources, importMap: seq<Mapping>, f: string, g: string) {
    exists p :: RawConnects(sources, importMap, p, f, g)
  }

  /** The joined text: each line is a line of a file the root leads to, every line of these files that is kept as it is
      occurs once for each time it stands there, lines kept once occur once, and imports do not occur. */
  ghost predicate IsJoined(sources: Sources, importMap: seq<Mapping>, root: string, out: seq<string>, from: seq<Tag>) {
    && |from| == |out|
    && (forall i, j :: 0 <= i < j < |from| ==> from[i] != from[j])
    && (forall i :: 0 <= i < |from| ==>
          && IsRawLine(sources, from[i]) && RawReaches(sources, importMap, root, from[i].file)
          && out[i] == RawText(sources, from[i])
          && WithoutLineEnds(sources[from[i].file][from[i].index], out[i]))
    && (forall i :: 0 <= i < |out| ==> !IsImport(out[i]))
    && (forall i, j :: 0 <= i < j < |out| && IsOnce(out[i]) ==> out[i] != out[j])
    && (forall t :: IsRawLine(sources, t) && RawReaches(sources, importMap, root, t.file) ==>
          var text := RawText(sources, t);
          if IsOnce(text) then text in out else !IsImport(text) ==> t in from)
  }

  // Classified and raw lines

  lemma StartsDiffer(s: string)
    ensures "import" <= s ==> !("pragma" <= s) && !("// SPDX-License-Identifier: MIT" <= s)
  {
    if "import" <= s {
      assert s[0] == "import"[0];
    }
    if "pragma" <= s {
      assert s[0] == "pragma"[0];
    }
    if "// SPDX-License-Identifier: MIT" <= s {
      assert s[0] == "// SPDX-License-Identifier: MIT"[0];
    }
  }

  lemma SyntaxIsImport(s: string, name: string)
    requires ImportSyntax(s, name)
    ensures "import" <= s
  {
    MatchImportIff(s, name);
  }

  /** How a raw line is classified. */
  lemma ClassifiedAs(raw: string, importMap: seq<Mapping>)
    ensures var line, text := Classify(raw, importMap), StripNewline(raw);
            && (line == Pragma(text) <==> IsOnce(text))
            && (line == Body(text) <==> !IsOnce(text) && !IsImport(text))
            && (line.Import? <==> IsImport(text))
  {
    StartsDiffer(StripSpace(StripNewline(raw)));
  }

  lemma ClassifiedImport(raw: string, importMap: seq<Mapping>, g: string)
    ensures Classify(raw, importMap) == Import(Some(g)) <==> RawImport(raw, importMap, g)
  {
    var s := StripSpace(StripNewline(raw));
    ClassifiedAs(raw, importMap);
    if Classify(raw, importMap) == Import(Some(g)) {
      var name := MatchImport(s).value;
      MatchImportIff(s, name);
    }
    if name :| ImportSyntax(s, name) && g == ResolveName(name, importMap) {
      MatchImportIff(s, name);
      SyntaxIsImport(s, name);
    }
  }

  lemma ImportsAreRaw(sources: Sources, importMap: seq<Mapping>, f: string, g: string)
    ensures Imports(ClassifyAll(sources, importMap), f, g) <==> RawImports(sources, importMap, f, g)
  {
    var files := ClassifyAll(sources, importMap);
    if f in sources {
      forall i | 0 <= i < |sources[f]|
        ensures files[f][i] == Import(Some(g)) <==> RawImport(sources[f][i], importMap, g)
      {
        ClassifiedImport(sources[f][i], importMap, g);
      }
    }
  }

  lemma ReachesAreRaw(sources: Sources, importMap: seq<Mapping>, f: string, g: string)
    ensures Reaches(ClassifyAll(sources, importMap), f, g) <==> RawReaches(sources, importMap, f, g)
  {
    var files := ClassifyAll(sources, importMap);
    forall a, b
      ensures Imports(files, a, b) <==> RawImports(sources, importMap, a, b)
    {
      ImportsAreRaw(sources, importMap, a, b);
    }
    if Reaches(files, f, g) {
      var p :| Connects(files, p, f, g);
      assert RawConnects(sources, importMap, p, f, g);
    }
    if RawReaches(sources, importMap, f, g) {
      var p :| RawConnects(sources, importMap, p, f, g);
      assert Connects(files, p, f, g);
    }
  }

  lemma LineIsClassified(sources: Sources, importMap: seq<Mapping>, t: Tag)
    requires IsRawLine(sources, t)
    ensures var files, text := ClassifyAll(sources, importMap), RawText(sources, t);
            && IsLine(files, t)
            && (LineAt(files, t) == Pragma(text) <==> IsOnce(text))
            && (LineAt(files, t) == Body(text) <==> !IsOnce(text) && !IsImport(text))
            && (LineAt(files, t).Import? <==> IsImport(text))
            && (!LineAt(files, t).Import? ==> LineAt(files, t).text == text)
  {
    ClassifiedAs(sources[t.file][t.index], importMap);
  }

  /** The join of the classified lines is the joined text. */
  lemma JoinIsJoined(sources: Sources, importMap: seq<Mapping>, root: string)
    requires root in sources && JoinFile(ClassifyAll(sources, importMap), root, {}, {}).ok
    ensures var files := ClassifyAll(sources, importMap);
            var from := JoinFile(files, root, {}, {}).out;
            IsJoined(sources, importMap, root, Texts(files, from), from)
  {
    var files := ClassifyAll(sources, importMap);
    var from := JoinFile(files, root, {}, {}).out;
    JoinOutputsEachLineOnce(files, root);
    forall i | 0 <= i < |from|
      ensures IsRawLine(sources, from[i]) && RawReaches(sources, importMap, root, from[i].file)
      ensures Texts(files, from)[i] == RawText(sources, from[i]) && !IsImport(Texts(files, from)[i])
      ensures WithoutLineEnds(sources[from[i].file][from[i].index], Texts(files, from)[i])
      ensures IsOnce(Texts(files, from)[i]) ==> LineAt(files, from[i]) == Pragma(Texts(files, from)[i])
    {
      assert from[i] in from;
      LineEndsGo(sources[from[i].file][from[i].index]);
      ReachesAreRaw(sources, importMap, root, from[i].file);
      LineIsClassified(sources, importMap, from[i]);
    }
    OnceLinesOnce(files, from);
    forall t | IsRawLine(sources, t) && RawReaches(sources, importMap, root, t.file)
      ensures var text := RawText(sources, t);
              if IsOnce(text) then text in Texts(files, from) else !IsImport(text) ==> t in from
    {
      ReachesAreRaw(sources, importMap, root, t.file);
      LineIsClassified(sources, importMap, t);
      if IsOnce(RawText(sources, t)) {
        var t' :| t' in from && LineAt(files, t') == LineAt(files, t);
        var i :| 0 <= i < |from| && from[i] == t';
        assert Texts(files, from)[i] == RawText(sources, t);
      }
    }
  }

  lemma OnceLinesOnce(files: Files, from: seq<Tag>)
    requires forall t :: t in from ==> IsLine(files, t)
    requires forall i, j :: 0 <= i < j < |from| ==> from[i] != from[j]
    requires forall i :: 0 <= i < |from| && IsOnce(Texts(files, from)[i]) ==> LineAt(files, from[i]) == Pragma(Texts(files, from)[i])
    requires forall t, t' :: t in from && t' in from && LineAt(files, t).Pragma? && LineAt(files, t) == LineAt(files, t') ==> t == t'
    ensures forall i, j :: 0 <= i < j < |from| && IsOnce(Texts(files, from)[i]) ==> Texts(files, from)[i] != Texts(files, from)[j]
  {
    forall i, j | 0 <= i < j < |from| && IsOnce(Texts(files, from)[i])
      ensures Texts(files, from)[i] != Texts(files, from)[j]
    {
      assert from[i] in from && from[j] in from;
    }
  }

  /** Joins a file on disk. Fails if and only if a file that the root leads to is missing. */
  method JoinSources(sources: Sources, importMap: seq<Mapping>, root: string) returns (r: Result<seq<string>, string>)
    requires root in sources
    ensures r.Ok? <==> forall f :: RawReaches(sources, importMap, root, f) ==> f in sources
    ensures r.Ok? ==> exists from :: IsJoined(sources, importMap, root, r.value, from)
  {
    var joiner := new Joiner(sources, importMap);
    ghost var files := ClassifyAll(sources, importMap);
    r := joiner.Join(root);
    JoinMarksReachable(files, root);
    forall f
      ensures Reaches(files, root, f) <==> RawReaches(sources, importMap, root, f)
    {
      ReachesAreRaw(sources, importMap, root, f);
    }
    if r.Ok? {
      JoinIsJoined(sources, importMap, root);
    }
  }
}
