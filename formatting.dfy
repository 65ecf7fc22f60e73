/**
 * formatContractDataTypes (extractDataTypes.py:123-132): one line per
 * import, then a blank line, then one `  o <Type> <name>` line per term in
 * dict order, every line ended by a newline.
 */
module Formatting {
  import opened Text
  import opened TypeInference
  import opened OrderedMaps
  import opened Scanner
  import opened Extraction

  /** Every line followed by a newline, all concatenated. */
  function Unlines(lines: seq<string>): string
    decreases |lines|
  {
    if lines == [] then ""
    else Unlines(lines[..|lines| - 1]) + lines[|lines| - 1] + "\n"
  }

  lemma {:induction false} UnlinesAppend(a: seq<string>, b: seq<string>)
    ensures Unlines(a + b) == Unlines(a) + Unlines(b)
    decreases |b|
  {
    if b == [] {
      assert a + b == a;
    } else {
      var b' := b[..|b| - 1];
      assert (a + b)[..|a + b| - 1] == a + b';
      UnlinesAppend(a, b');
    }
  }

  /** Unlines of lines and one more line after them. */
  lemma UnlinesSnoc(lines: seq<string>, line: string)
    ensures Unlines(lines + [line]) == Unlines(lines) + line + "\n"
  {
    assert (lines + [line])[..|lines|] == lines;
  }

  /** One more element of `b` taken after `a`. */
  lemma PrefixSnoc(a: seq<string>, b: seq<string>, j: nat)
    requires j < |b|
    ensures a + b[..j + 1] == (a + b[..j]) + [b[j]]
  {
    assert b[..j + 1] == b[..j] + [b[j]];
  }

  /** Unlines of a line in front of others. */
  lemma UnlinesCons(line: string, rest: seq<string>)
    ensures Unlines([line] + rest) == line + "\n" + Unlines(rest)
  {
    UnlinesAppend([line], rest);
    assert [line][..0] == [];
  }

  /** Index of the first newline of `s`, or `|s|` when there is none. */
  function NewlineIndex(s: string): (i: nat)
    ensures i <= |s|
    ensures '\n' !in s[..i]
    ensures i < |s| ==> s[i] == '\n'
  {
    if s == [] then 0
    else if s[0] == '\n' then 0
    else
      var j := NewlineIndex(s[1..]);
      assert s[..j + 1] == [s[0]] + s[1..][..j];
      j + 1
  }

  /** The text cut at its newlines (the newlines dropped, a final newline ends the last line). */
  function Lines(s: string): (lines: seq<string>)
    ensures forall line :: line in lines ==> '\n' !in line
    decreases |s|
  {
    if s == [] then []
    else
      var i := NewlineIndex(s);
      if i == |s| then [s]
      else [s[..i]] + Lines(s[i + 1..])
  }

  /** The first newline of `line + "\n" + rest` is the one after `line`. */
  lemma NewlineIndexAfterLine(line: string, rest: string)
    requires '\n' !in line
    ensures NewlineIndex(line + "\n" + rest) == |line|
  {
    var s := line + "\n" + rest;
    var i := NewlineIndex(s);
    assert s[|line|] == '\n';
  }

  /** Cutting the printed lines at their newlines gives the lines back. */
  lemma {:induction false} LinesUnlines(lines: seq<string>)
    requires forall line :: line in lines ==> '\n' !in line
    ensures Lines(Unlines(lines)) == lines
    decreases |lines|
  {
    if lines != [] {
      var line, rest := lines[0], lines[1..];
      assert lines == [line] + rest;
      UnlinesCons(line, rest);
      var s := line + "\n" + Unlines(rest);
      NewlineIndexAfterLine(line, Unlines(rest));
      assert s[..|line|] == line;
      assert s[|line| + 1..] == Unlines(rest);
      LinesUnlines(rest);
    }
  }

  /** A text that is empty or ends in a newline is the printing of its lines. */
  lemma {:induction false} UnlinesLines(s: string)
    requires s == "" || s[|s| - 1] == '\n'
    ensures Unlines(Lines(s)) == s
    decreases |s|
  {
    if s != [] {
      var i := NewlineIndex(s);
      assert i < |s|;
      var rest := s[i + 1..];
      assert rest == "" || rest[|rest| - 1] == '\n';
      UnlinesLines(rest);
      UnlinesCons(s[..i], Lines(rest));
      assert s == s[..i] + "\n" + rest;
    }
  }

  /** Lines without newlines print as exactly one newline each. */
  lemma {:induction false} UnlinesNewlines(lines: seq<string>)
    requires forall line :: line in lines ==> '\n' !in line
    ensures CountNewlines(Unlines(lines)) == |lines|
    decreases |lines|
  {
    if lines != [] {
      var init := lines[..|lines| - 1];
      var last := lines[|lines| - 1];
      assert forall line :: line in init ==> line in lines;
      UnlinesNewlines(init);
      CountNewlinesAppend(Unlines(init), last);
      CountNewlinesAppend(Unlines(init) + last, "\n");
      assert "\n"[1..] == "";
    }
  }

  /** The line `  o <Type> <name>` declaring one term. */
  function Declaration(key: string, t: TypeName): string {
    "  o " + t.Name() + " " + key
  }

  /** A declaration has a newline only where its identifier has one. */
  lemma DeclarationNewlines(key: string, t: TypeName)
    ensures '\n' in Declaration(key, t) <==> '\n' in key
  {
    var name := t.Name();
    var d := Declaration(key, t);
    assert d == "  o " + name + " " + key;
    if '\n' in d {
      var j :| 0 <= j < |d| && d[j] == '\n';
      if j >= 5 + |name| {
        assert key[j - 5 - |name|] == '\n';
      } else if j >= 4 {
        assert name[j - 4] == '\n';
        assert IsWordChar(name[j - 4]);
      }
    }
    if '\n' in key {
      var j :| 0 <= j < |key| && key[j] == '\n';
      assert d[5 + |name| + j] == '\n';
    }
  }

  /** The declarations of the keys `keys`, in that order. */
  function Declarations(keys: seq<string>, entries: map<string, TypeName>): seq<string>
    requires forall k :: k in keys ==> k in entries
  {
    seq(|keys|, i requires 0 <= i < |keys| => Declaration(keys[i], entries[keys[i]]))
  }

  /** The text `formatContractDataTypes(terms, imports)` builds. */
  function Formatted(imports: seq<string>, terms: OrderedMap<TypeName>): string
    requires terms.Valid()
  {
    Unlines(imports + [""] + Declarations(terms.order, terms.entries))
  }

  /**
   * `formatContractDataTypes(terms, imports)`: the imports in the order given,
   * one per line, a blank line, and a declaration per term in dict order.
   */
  method FormatContractDataTypes(terms: OrderedMap<TypeName>, imports: seq<string>) returns (out: string)
    requires terms.Valid()
    ensures out == Formatted(imports, terms)
  {
    out := "";
    for j := 0 to |imports|
      invariant out == Unlines(imports[..j])
    {
      UnlinesPrefixStep(imports, j);
      out := out + imports[j] + "\n";
    }
    AppendBlank(imports);
    out := out + "\n";
    ghost var head := imports + [""];
    ghost var decls := Declarations(terms.order, terms.entries);
    assert head + decls[..0] == head;
    for j := 0 to |terms.order|
      invariant out == Unlines(head + decls[..j])
    {
      var key := terms.order[j];
      var line := Declaration(key, terms.entries[key]);
      assert line == decls[j];
      UnlinesStep(head, decls, j);
      out := out + line + "\n";
    }
    assert decls[..|terms.order|] == decls;
  }

  /** Printing one more line of `b` after `a` and the first `j` lines of `b`. */
  lemma UnlinesStep(a: seq<string>, b: seq<string>, j: nat)
    requires j < |b|
    ensures Unlines(a + b[..j + 1]) == Unlines(a + b[..j]) + b[j] + "\n"
  {
    PrefixSnoc(a, b, j);
    UnlinesSnoc(a + b[..j], b[j]);
  }

  /** Printing the first `j + 1` lines of `b`. */
  lemma UnlinesPrefixStep(b: seq<string>, j: nat)
    requires j < |b|
    ensures Unlines(b[..j + 1]) == Unlines(b[..j]) + b[j] + "\n"
  {
    assert b[..j + 1] == b[..j] + [b[j]];
    UnlinesSnoc(b[..j], b[j]);
  }

  /** After all the imports comes the blank line. */
  lemma AppendBlank(imports: seq<string>)
    ensures Unlines(imports[..|imports|]) + "\n" == Unlines(imports + [""])
  {
    assert imports[..|imports|] == imports;
    UnlinesSnoc(imports, "");
    assert Unlines(imports) + "" == Unlines(imports);
  }

  /**
   * The output has at least one character per line, so it is never empty
   * (as the caller at extractDataTypes.py:157 asserts).
   */
  lemma FormattedNonEmpty(imports: seq<string>, terms: OrderedMap<TypeName>)
    requires terms.Valid()
    ensures |Formatted(imports, terms)| >= |imports| + 1 + |terms.order|
  {
    LongerThanLines(imports, Declarations(terms.order, terms.entries));
  }

  /** Every line adds at least its newline. */
  lemma {:induction false} UnlinesLength(lines: seq<string>)
    ensures |Unlines(lines)| >= |lines|
    decreases |lines|
  {
    if lines != [] {
      UnlinesLength(lines[..|lines| - 1]);
    }
  }

  lemma LongerThanLines(imports: seq<string>, rest: seq<string>)
    ensures |Unlines(imports + [""] + rest)| >= |imports| + 1 + |rest|
  {
    UnlinesLength(imports + [""] + rest);
  }

  /** With no imports the output opens with the blank line. */
  lemma FormattedStartsBlank(terms: OrderedMap<TypeName>)
    requires terms.Valid()
    ensures Formatted([], terms)[0] == '\n'
  {
    BlankFirst([], Declarations(terms.order, terms.entries));
  }

  lemma BlankFirst(imports: seq<string>, rest: seq<string>)
    requires imports == []
    ensures Unlines(imports + [""] + rest)[0] == '\n'
  {
    assert imports + [""] + rest == [""] + rest;
    UnlinesCons("", rest);
  }

  /** Neither the imports nor the identifiers hold a newline. */
  ghost predicate SingleLine(imports: seq<string>, terms: OrderedMap<TypeName>) {
    && (forall imp :: imp in imports ==> '\n' !in imp)
    && (forall k :: k in terms.order ==> '\n' !in k)
  }

  lemma FormattedLinesHaveNoNewline(imports: seq<string>, terms: OrderedMap<TypeName>)
    requires terms.Valid() && SingleLine(imports, terms)
    ensures forall line :: line in imports + [""] + Declarations(terms.order, terms.entries) ==> '\n' !in line
  {
    var decls := Declarations(terms.order, terms.entries);
    forall line | line in imports + [""] + decls
      ensures '\n' !in line
    {
      if line in decls {
        var i :| 0 <= i < |decls| && decls[i] == line;
        DeclarationNewlines(terms.order[i], terms.entries[terms.order[i]]);
      }
    }
  }

  /**
   * Read back line by line, the output is the imports, a blank line, and the
   * term declarations in dict order; it has `|imports| + 1 + |terms|` newlines.
   */
  lemma FormattedLines(imports: seq<string>, terms: OrderedMap<TypeName>)
    requires terms.Valid() && SingleLine(imports, terms)
    ensures Lines(Formatted(imports, terms)) == imports + [""] + Declarations(terms.order, terms.entries)
    ensures CountNewlines(Formatted(imports, terms)) == |imports| + 1 + |terms.order|
  {
    FormattedLinesHaveNoNewline(imports, terms);
    LinesUnlines(imports + [""] + Declarations(terms.order, terms.entries));
    UnlinesNewlines(imports + [""] + Declarations(terms.order, terms.entries));
  }

  /** The two imports `matchDataType` can produce are single lines. */
  lemma ImportsAreSingleLines()
    ensures '\n' !in TimeImport && '\n' !in AddressImport
  {
  }

  /** `  o <Type> <key>` for each key, with the type `matchDataType` infers for it. */
  function InferredDeclarations(keys: seq<string>): seq<string> {
    seq(|keys|, i requires 0 <= i < |keys| => Declaration(keys[i], MatchDataType(keys[i]).typ))
  }

  /** Declarations from a dict that maps each key to its inferred type. */
  lemma DeclarationsAreInferred(keys: seq<string>, entries: map<string, TypeName>)
    requires forall k :: k in keys ==> k in entries && entries[k] == MatchDataType(k).typ
    ensures Declarations(keys, entries) == InferredDeclarations(keys)
  {
  }

  /**
   * The whole pipeline: formatting what the extractor returns for `text`
   * (with its import set listed in any order) prints the imports, a blank
   * line, then `  o <Type> <key>` for each distinct placeholder in order of
   * first occurrence, with its inferred type.
   */
  lemma PipelineLines(text: string, imports: seq<string>)
    requires forall imp :: imp in imports ==> imp in ImportsOf(Placeholders(text))
    ensures Lines(Formatted(imports, TermsOf(Placeholders(text))))
         == imports + [""] + InferredDeclarations(Dedup(Placeholders(text)))
    ensures CountNewlines(Formatted(imports, TermsOf(Placeholders(text))))
         == |imports| + 1 + |Dedup(Placeholders(text))|
  {
    var terms := TermsOf(Placeholders(text));
    ExtractedImportsAreSingleLines(Placeholders(text));
    ExtractedKeysAreSingleLines(text);
    assert SingleLine(imports, terms);
    FormattedLines(imports, terms);
    DeclarationsAreInferred(terms.order, terms.entries);
  }

  /** No import collected by the extractor holds a newline. */
  lemma ExtractedImportsAreSingleLines(keys: seq<string>)
    ensures forall imp :: imp in ImportsOf(keys) ==> '\n' !in imp
  {
    ImportsAreModelImports(keys);
    ImportsAreSingleLines();
  }

  /** No identifier taken from a placeholder holds a newline. */
  lemma ExtractedKeysAreSingleLines(text: string)
    ensures forall k :: k in Dedup(Placeholders(text)) ==> '\n' !in k
  {
    PlaceholdersAreWords(text);
    forall k | k in Dedup(Placeholders(text))
      ensures '\n' !in k
    {
      assert IsWord(k);
    }
  }
}
