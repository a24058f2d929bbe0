/** How the joiner classifies the raw lines of a Solidity file. */
module ImportLines {
  import Collections
  import opened Wrappers
  import opened ContractJoiner

  /** The white space that str.strip() removes. */
  predicate IsSpace(c: char) {
    || '\U{09}' <= c <= '\U{0D}' || '\U{1C}' <= c <= '\U{20}' || c == '\U{85}' || c == '\U{A0}' || c == '\U{1680}'
    || '\U{2000}' <= c <= '\U{200A}' || c == '\U{2028}' || c == '\U{2029}' || c == '\U{202F}' || c == '\U{205F}'
    || c == '\U{3000}'
  }

  /** By their code points. */
  lemma SpacesAre(c: char)
    ensures IsSpace(c) <==>
            c as int in {9, 10, 11, 12, 13, 28, 29, 30, 31, 32, 133, 160, 5760, 8192, 8193, 8194, 8195, 8196, 8197, 8198,
                         8199, 8200, 8201, 8202, 8232, 8233, 8239, 8287, 12288}
  {
  }

  function StripLeft(s: string, p: char -> bool): string {
    if s != [] && p(s[0]) then StripLeft(s[1..], p) else s
  }

  function StripRight(s: string, p: char -> bool): string {
    if s != [] && p(s[|s| - 1]) then StripRight(s[..|s| - 1], p) else s
  }

  function Strip(s: string, p: char -> bool): string { StripRight(StripLeft(s, p), p) }

  ghost predicate All(s: string, p: char -> bool) { forall i :: 0 <= i < |s| ==> p(s[i]) }

  /** What was stripped, on the left and on the right. */
  lemma {:induction false} StripLeftTakes(s: string, p: char -> bool) returns (left: string)
    ensures s == left + StripLeft(s, p) && All(left, p)
    ensures StripLeft(s, p) != [] ==> !p(StripLeft(s, p)[0])
  {
    if s != [] && p(s[0]) {
      var rest := StripLeftTakes(s[1..], p);
      left := [s[0]] + rest;
    } else {
      left := [];
    }
  }

  lemma {:induction false} StripRightTakes(s: string, p: char -> bool) returns (right: string)
    ensures s == StripRight(s, p) + right && All(right, p)
    ensures StripRight(s, p) != [] ==> !p(StripRight(s, p)[|StripRight(s, p)| - 1])
  {
    if s != [] && p(s[|s| - 1]) {
      var rest := StripRightTakes(s[..|s| - 1], p);
      right := rest + [s[|s| - 1]];
    } else {
      right := [];
    }
  }

  /** Stripping removes a run at either end and leaves a text that neither starts nor ends with such a character. */
  lemma StripTakesBothEnds(s: string, p: char -> bool) returns (left: string, right: string)
    ensures var r := Strip(s, p);
            && s == left + r + right && All(left, p) && All(right, p)
            && (r != [] ==> !p(r[0]) && !p(r[|r| - 1]))
  {
    left := StripLeftTakes(s, p);
    right := StripRightTakes(StripLeft(s, p), p);
  }

  function StripNewline(s: string): string { Strip(s, c => c == '\r' || c == '\n') }

  function StripSpace(s: string): string { Strip(s, IsSpace) }

  predicate IsQuote(c: char) { c == '"' || c == '\'' }

  function Spaces(n: nat): string { Collections.Repeat(' ', n) }

  function LeadingSpaces(s: string): (n: nat)
    ensures n <= |s|
    ensures forall i :: 0 <= i < n ==> s[i] == ' '
    ensures n < |s| ==> s[n] != ' '
  {
    if s != [] && s[0] == ' ' then 1 + LeadingSpaces(s[1..]) else 0
  }

  /**
    * A file name of the import syntax: at least one character that is no quote, any character that does not
    * end a line (the dot of the pattern is not escaped), then sol.
    */
  predicate IsContractName(name: string) {
    && |name| >= 5
    && name[|name| - 4] != '\n'
    && name[|name| - 3..] == "sol"
    && forall i :: 0 <= i < |name| - 4 ==> !IsQuote(name[i])
  }

  /** The same as the pattern has it: characters that are no quotes, one that ends no line, and sol. */
  ghost predicate NamePattern(name: string) {
    exists stem: string, c: char ::
      stem != [] && '"' !in stem && '\'' !in stem && c != '\n' && name == stem + [c, 's', 'o', 'l']
  }

  lemma NamesArePatterns(name: string)
    ensures IsContractName(name) <==> NamePattern(name)
  {
    if IsContractName(name) {
      var n := |name| - 4;
      var stem, c := name[..n], name[n];
      assert name[n + 1] == name[n + 1..][0] && name[n + 2] == name[n + 1..][1] && name[n + 3] == name[n + 1..][2];
      assert name == stem + [c, 's', 'o', 'l'];
      assert '"' !in stem && '\'' !in stem;
    }
    if NamePattern(name) {
      var stem: string, c: char :|
        stem != [] && '"' !in stem && '\'' !in stem && c != '\n' && name == stem + [c, 's', 'o', 'l'];
      assert |name| == |stem| + 4 && name[|stem|] == c && name[|name| - 3..] == "sol";
      forall i | 0 <= i < |name| - 4
        ensures !IsQuote(name[i])
      {
        assert name[i] == stem[i] && stem[i] in stem;
      }
    }
  }

  /** The regular expression: import, spaces, a quoted name, a semicolon. */
  ghost predicate ImportSyntax(s: string, name: string) {
    exists n: nat, q: char, q': char ::
      && n >= 1 && (q == '"' || q == '\'') && (q' == '"' || q' == '\'') && NamePattern(name)
      && s == "import" + (Spaces(n) + Quoted(q, name, q'))
  }

  /** The name an import line captures. */
  function MatchImport(s: string): Option<string> {
    if "import" <= s then MatchSpaces(s[6..]) else None
  }

  function MatchSpaces(s: string): Option<string> {
    var n := LeadingSpaces(s);
    if n >= 1 then MatchQuoted(s[n..]) else None
  }

  function MatchQuoted(s: string): Option<string> {
    var last := |s| - 1;
    if last >= 2 && IsQuote(s[0]) && IsQuote(s[last - 1]) && s[last] == ';' && IsContractName(s[1..last - 1])
    then Some(s[1..last - 1])
    else None
  }

  lemma {:induction false} LeadingSpacesAre(n: nat, s: string)
    requires s != [] && s[0] != ' '
    ensures LeadingSpaces(Spaces(n) + s) == n
  {
    if n == 0 {
      assert Spaces(0) + s == s;
    } else {
      LeadingSpacesAre(n - 1, s);
      assert (Spaces(n) + s)[1..] == Spaces(n - 1) + s;
    }
  }

  function Quoted(q: char, name: string, q': char): string { [q] + name + [q', ';'] }

  lemma MatchHasSyntax(s: string, name: string)
    requires MatchImport(s) == Some(name)
    ensures ImportSyntax(s, name)
  {
    NamesArePatterns(name);
    var rest := s[6..];
    var n := LeadingSpaces(rest);
    var quoted := rest[n..];
    assert quoted == Quoted(quoted[0], name, quoted[|quoted| - 2]);
    assert rest == Spaces(n) + quoted;
    assert s == "import" + rest;
  }

  lemma QuotedMatches(q: char, name: string, q': char)
    requires IsQuote(q) && IsQuote(q') && IsContractName(name)
    ensures MatchQuoted(Quoted(q, name, q')) == Some(name)
  {
    var s := Quoted(q, name, q');
    assert s[1..|s| - 2] == name;
  }

  lemma SyntaxMatches(n: nat, q: char, name: string, q': char)
    requires n >= 1 && IsQuote(q) && IsQuote(q') && IsContractName(name)
    ensures MatchImport("import" + (Spaces(n) + Quoted(q, name, q'))) == Some(name)
  {
    var rest := Spaces(n) + Quoted(q, name, q');
    assert ("import" + rest)[6..] == rest;
    LeadingSpacesAre(n, Quoted(q, name, q'));
    assert rest[n..] == Quoted(q, name, q');
    QuotedMatches(q, name, q');
  }

  /** A line captures a name if and only if it has the import syntax for that name. */
  lemma MatchImportIff(s: string, name: string)
    ensures MatchImport(s) == Some(name) <==> ImportSyntax(s, name)
  {
    NamesArePatterns(name);
    if MatchImport(s) == Some(name) {
      MatchHasSyntax(s, name);
    }
    if ImportSyntax(s, name) {
      var n: nat, q: char, q': char :|
        n >= 1 && IsQuote(q) && IsQuote(q') && IsContractName(name) && s == "import" + (Spaces(n) + Quoted(q, name, q'));
      SyntaxMatches(n, q, name, q');
    }
  }

  // The import map

  predicate StartsWith(s: string, prefix: string) { prefix <= s }

  /** str.replace: every occurrence, left to right; an empty pattern is found around every character. */
  function Replace(s: string, pattern: string, path: string): string
    decreases |s|
  {
    if pattern == [] then if s == [] then path else path + [s[0]] + Replace(s[1..], pattern, path)
    else if s == [] then []
    else if pattern <= s then path + Replace(s[|pattern|..], pattern, path)
    else [s[0]] + Replace(s[1..], pattern, path)
  }

  ghost predicate Occurs(pattern: string, s: string) { exists i :: 0 <= i <= |s| && pattern <= s[i..] }

  /** An occurrence that is not at the front is one in the tail. */
  lemma OccursInTail(pattern: string, s: string)
    requires s != [] && !(pattern <= s)
    ensures Occurs(pattern, s) <==> Occurs(pattern, s[1..])
  {
    if Occurs(pattern, s) {
      var i :| 0 <= i <= |s| && pattern <= s[i..];
      assert s[0..] == s;
      assert s[i..] == s[1..][i - 1..];
    }
    if Occurs(pattern, s[1..]) {
      var i :| 0 <= i <= |s[1..]| && pattern <= s[1..][i..];
      assert s[1..][i..] == s[i + 1..];
    }
  }

  lemma {:induction false} ReplaceAbsent(s: string, pattern: string, path: string)
    requires pattern != [] && !Occurs(pattern, s)
    ensures Replace(s, pattern, path) == s
  {
    if s != [] {
      assert s[0..] == s;
      OccursInTail(pattern, s);
      ReplaceAbsent(s[1..], pattern, path);
    }
  }

  lemma {:induction false} ReplaceItself(s: string, pattern: string)
    requires pattern != []
    ensures Replace(s, pattern, pattern) == s
    decreases |s|
  {
    if pattern <= s {
      ReplaceItself(s[|pattern|..], pattern);
    } else if s != [] {
      ReplaceItself(s[1..], pattern);
    }
  }

  /** Replacing by something longer never shortens, by something shorter never lengthens. */
  lemma {:induction false} ReplaceLength(s: string, pattern: string, path: string)
    requires pattern != []
    ensures |path| >= |pattern| ==> |Replace(s, pattern, path)| >= |s|
    ensures |path| <= |pattern| ==> |Replace(s, pattern, path)| <= |s|
    decreases |s|
  {
    if pattern <= s {
      ReplaceLength(s[|pattern|..], pattern, path);
    } else if s != [] {
      ReplaceLength(s[1..], pattern, path);
    }
  }

  /** An occurrence at the front changes the text, unless it is replaced by itself. */
  lemma FrontReplaced(s: string, pattern: string, path: string)
    requires pattern != [] && pattern <= s && path != pattern
    ensures Replace(s, pattern, path) != s
  {
    var rest := s[|pattern|..];
    ReplaceLength(rest, pattern, path);
    assert Replace(s, pattern, path)[..|path|] == path && s[..|pattern|] == pattern;
  }

  /** Replacing changes nothing if and only if there is nothing to replace or it is replaced by itself. */
  lemma {:induction false} ReplaceKeepsIff(s: string, pattern: string, path: string)
    requires pattern != []
    ensures Replace(s, pattern, path) == s <==> !Occurs(pattern, s) || path == pattern
  {
    if path == pattern {
      ReplaceItself(s, pattern);
    } else if !Occurs(pattern, s) {
      ReplaceAbsent(s, pattern, path);
    } else if pattern <= s {
      FrontReplaced(s, pattern, path);
    } else if s != [] {
      OccursInTail(pattern, s);
      ReplaceKeepsIff(s[1..], pattern, path);
      assert Replace(s, pattern, path)[1..] == Replace(s[1..], pattern, path);
    }
  }

  lemma {:induction false} ReplaceNothing(s: string, path: string)
    ensures path == [] ==> Replace(s, [], path) == s
    ensures |Replace(s, [], path)| >= |path| + |s|
    ensures s != [] && path != [] ==> |Replace(s, [], path)| > |path| + |s|
  {
    if s != [] {
      ReplaceNothing(s[1..], path);
    }
  }

  /** The pieces with the separator between them. */
  function Interleave(pieces: seq<string>, separator: string): string {
    if pieces == [] then []
    else if |pieces| == 1 then pieces[0]
    else pieces[0] + separator + Interleave(pieces[1..], separator)
  }

  /** Replacing cuts the text at occurrences until no piece has one, and puts the path in every cut. */
  lemma {:induction false} ReplaceCuts(s: string, pattern: string, path: string) returns (pieces: seq<string>)
    requires pattern != []
    ensures pieces != []
    ensures s == Interleave(pieces, pattern) && Replace(s, pattern, path) == Interleave(pieces, path)
    ensures forall piece :: piece in pieces ==> !Occurs(pattern, piece)
    decreases |s|
  {
    if s == [] {
      pieces := [[]];
    } else if pattern <= s {
      var rest := ReplaceCuts(s[|pattern|..], pattern, path);
      pieces := [[]] + rest;
      EmptyFirst(rest, pattern);
      EmptyFirst(rest, path);
      assert s == pattern + s[|pattern|..];
      assert !Occurs(pattern, []);
    } else {
      var rest := ReplaceCuts(s[1..], pattern, path);
      pieces := LongerFirst(s[0], rest, pattern, path);
    }
  }

  lemma EmptyFirst(rest: seq<string>, separator: string)
    requires rest != []
    ensures Interleave([[]] + rest, separator) == separator + Interleave(rest, separator)
  {
    assert ([[]] + rest)[1..] == rest;
    assert [] + separator == separator;
  }

  lemma LongerFirst(c: char, rest: seq<string>, pattern: string, path: string) returns (pieces: seq<string>)
    requires rest != [] && !(pattern <= [c] + Interleave(rest, pattern))
    requires forall piece :: piece in rest ==> !Occurs(pattern, piece)
    ensures pieces != []
    ensures Interleave(pieces, pattern) == [c] + Interleave(rest, pattern)
    ensures Interleave(pieces, path) == [c] + Interleave(rest, path)
    ensures forall piece :: piece in pieces ==> !Occurs(pattern, piece)
  {
    var first := [c] + rest[0];
    pieces := [first] + rest[1..];
    InterleaveFirst(c, rest, pattern);
    InterleaveFirst(c, rest, path);
    OccursInTail(pattern, first);
    assert first[1..] == rest[0];
  }

  lemma InterleaveFirst(c: char, rest: seq<string>, separator: string)
    requires rest != []
    ensures Interleave([[c] + rest[0]] + rest[1..], separator) == [c] + Interleave(rest, separator)
    ensures [c] + rest[0] <= [c] + Interleave(rest, separator)
  {
    var pieces := [[c] + rest[0]] + rest[1..];
    assert pieces[1..] == rest[1..];
  }

  datatype Mapping = Mapping(prefix: string, path: string)

  /** The mappings are applied one after the other, each to the result of the previous ones. */
  function ResolveName(name: string, importMap: seq<Mapping>): string {
    if importMap == [] then name
    else
      var before, m := ResolveName(name, importMap[..|importMap| - 1]), importMap[|importMap| - 1];
      if StartsWith(before, m.prefix) then Replace(before, m.prefix, m.path) else before
  }

  /** A mapping applies to what the mappings before it made of the name. */
  lemma ResolveNext(name: string, importMap: seq<Mapping>, m: Mapping)
    ensures var before := ResolveName(name, importMap);
            ResolveName(name, importMap + [m]) == if m.prefix <= before then Replace(before, m.prefix, m.path) else before
  {
    assert (importMap + [m])[..|importMap|] == importMap;
  }

  /** The first prefix becomes the path, and replacing goes on in the rest of the name. */
  lemma ReplacePrefix(m: Mapping, rest: string)
    requires m.prefix != []
    ensures Replace(m.prefix + rest, m.prefix, m.path) == m.path + Replace(rest, m.prefix, m.path)
  {
    assert (m.prefix + rest)[|m.prefix|..] == rest;
  }

  /** A mapping turns its prefix into its path and leaves the rest of the name alone if and only if the prefix does
      not come back in the rest or is its own path; an empty prefix does so only for an empty name. */
  lemma PrefixIsMappedIff(name: string, importMap: seq<Mapping>, m: Mapping, rest: string)
    requires ResolveName(name, importMap) == m.prefix + rest
    ensures ResolveName(name, importMap + [m]) == m.path + rest
            <==> !Occurs(m.prefix, rest) || m.path == m.prefix || m.prefix + rest == []
  {
    ResolveNext(name, importMap, m);
    if m.prefix != [] {
      ReplacePrefix(m, rest);
      ReplaceKeepsIff(rest, m.prefix, m.path);
      if m.path + Replace(rest, m.prefix, m.path) == m.path + rest {
        assert (m.path + rest)[|m.path|..] == rest;
        assert (m.path + Replace(rest, m.prefix, m.path))[|m.path|..] == Replace(rest, m.prefix, m.path);
      }
    } else {
      assert [] + rest == rest;
      assert m.prefix <= rest[0..];
      ReplaceNothing(rest, m.path);
    }
  }

  /** A mapping that applies puts its path at every cut of the name by its prefix. */
  lemma EveryOccurrenceIsMapped(name: string, importMap: seq<Mapping>, m: Mapping) returns (pieces: seq<string>)
    requires m.prefix != [] && m.prefix <= ResolveName(name, importMap)
    ensures pieces != [] && forall piece :: piece in pieces ==> !Occurs(m.prefix, piece)
    ensures ResolveName(name, importMap) == Interleave(pieces, m.prefix)
    ensures ResolveName(name, importMap + [m]) == Interleave(pieces, m.path)
  {
    ResolveNext(name, importMap, m);
    pieces := ReplaceCuts(ResolveName(name, importMap), m.prefix, m.path);
  }

  /** So a prefix that stands twice at the front is replaced twice. */
  lemma PrefixComesBack(m: Mapping, rest: string)
    requires m.prefix != [] && !Occurs(m.prefix, rest)
    ensures ResolveName(m.prefix + (m.prefix + rest), [m]) == m.path + (m.path + rest)
  {
    var name := m.prefix + (m.prefix + rest);
    assert [] + [m] == [m] && ResolveName(name, []) == name;
    ResolveNext(name, [], m);
    ReplacePrefix(m, m.prefix + rest);
    ReplacePrefix(m, rest);
    ReplaceAbsent(rest, m.prefix, m.path);
  }

  function Classify(raw: string, importMap: seq<Mapping>): Line {
    var line := StripNewline(raw);
    var stripped := StripSpace(line);
    if StartsWith(stripped, "pragma") || StartsWith(stripped, "// SPDX-License-Identifier: MIT") then Pragma(line)
    else if StartsWith(stripped, "import") then
      match MatchImport(stripped)
      case Some(name) => Import(Some(ResolveName(name, importMap)))
      case None => Import(None)
    else Body(line)
  }

  /** Every file on disk, classified. */
  function ClassifyAll(sources: map<string, seq<string>>, importMap: seq<Mapping>): Files {
    map f | f in sources :: ClassifyLines(sources[f], importMap)
  }

  function ClassifyLines(raw: seq<string>, importMap: seq<Mapping>): seq<Line> {
    seq(|raw|, i requires 0 <= i < |raw| => Classify(raw[i], importMap))
  }
}
