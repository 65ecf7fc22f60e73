/**
 * extractContractDataTypes (extractDataTypes.py:41-56): every placeholder
 * identifier, in the order the scan meets it, gets its inferred type stored
 * under it in `terms`, and every non-empty import it brings is collected;
 * the imports are returned as a set.
 */
module Extraction {
  import opened Wrappers
  import opened Text
  import opened TypeInference
  import opened OrderedMaps
  import opened Scanner

  /** The non-empty imports of a list of identifiers, as a set. */
  function ImportsOf(keys: seq<string>): (imports: set<string>)
    ensures forall imp :: imp in imports <==>
      imp != "" && exists k :: k in keys && MatchDataType(k).imp == imp
  {
    set k | k in keys && MatchDataType(k).imp != "" :: MatchDataType(k).imp
  }

  /** The collected imports are among the two model imports. */
  lemma ImportsAreModelImports(keys: seq<string>)
    ensures ImportsOf(keys) <= {TimeImport, AddressImport}
  {
    forall imp | imp in ImportsOf(keys)
      ensures imp in {TimeImport, AddressImport}
    {
      var k :| k in keys && MatchDataType(k).imp == imp;
      ImportValues(k);
    }
  }

  /** One more identifier adds its import, when it has one. */
  lemma ImportsSnoc(keys: seq<string>, key: string)
    ensures ImportsOf(keys + [key])
         == ImportsOf(keys) + (if MatchDataType(key).imp != "" then {MatchDataType(key).imp} else {})
  {
    forall k | k in keys + [key]
      ensures k in keys || k == key
    {
    }
  }

  /** Appending to a list adds one element to its set of elements. */
  lemma ElementsSnoc(l: seq<string>, x: string)
    ensures (set y | y in l + [x]) == (set y | y in l) + {x}
  {
  }

  /**
   * `terms` is what the loop has built from the identifiers `found` so far:
   * the distinct identifiers in first-occurrence order, each mapped to its type.
   */
  ghost predicate Tracks(terms: OrderedMap<TypeName>, found: seq<string>) {
    && terms.Valid()
    && terms.order == Dedup(found)
    && (forall k :: k in terms.entries <==> k in found)
    && (forall k :: k in terms.entries ==> terms.entries[k] == MatchDataType(k).typ)
  }

  /** `terms[key] = val` keeps the dict in step with the identifiers seen. */
  lemma TracksPut(terms: OrderedMap<TypeName>, found: seq<string>, key: string)
    requires Tracks(terms, found)
    ensures Tracks(terms.Put(key, MatchDataType(key).typ), found + [key])
  {
    DedupSnoc(found, key);
  }

  /**
   * The dict the extractor builds from the identifiers `keys`, as a value:
   * the distinct identifiers in first-occurrence order, each mapped to its
   * inferred type.
   */
  function TermsOf(keys: seq<string>): (terms: OrderedMap<TypeName>)
    ensures terms.Valid()
    ensures forall k :: k in terms.entries <==> k in keys
  {
    OrderedMap(Dedup(keys), map k | k in keys :: MatchDataType(k).typ)
  }

  /** A dict that tracks `found` is that value. */
  lemma TracksIsTermsOf(terms: OrderedMap<TypeName>, found: seq<string>)
    requires Tracks(terms, found)
    ensures terms == TermsOf(found)
  {
    assert terms.entries == TermsOf(found).entries;
  }

  /** Once every placeholder has been seen, `Tracks` is the method's postcondition. */
  lemma TracksAll(terms: OrderedMap<TypeName>, found: seq<string>, text: string)
    requires Tracks(terms, found) && found == Placeholders(text)
    ensures terms.Valid()
    ensures terms.order == Dedup(Placeholders(text))
    ensures forall k :: k in terms.entries <==> k in Placeholders(text)
    ensures forall k :: k in terms.entries ==> terms.entries[k] == MatchDataType(k).typ
  {
  }

  /** A match at `i` contributes its identifier, and the scan resumes at its end. */
  lemma NextKey(text: string, i: nat, e: nat)
    requires i < |text| && MatchAt(text, i) == Some(e)
    ensures KeysOf(text, ScanFrom(text, i)) == [Key(text, Span(i, e))] + KeysOf(text, ScanFrom(text, e))
  {
    assert ScanFrom(text, i) == [Span(i, e)] + ScanFrom(text, e);
    assert ScanFrom(text, i)[1..] == ScanFrom(text, e);
  }

  /** The identifiers seen, then those still ahead of the scan, after a placeholder at `i`. */
  lemma NextFound(text: string, i: nat, e: nat, found: seq<string>)
    requires i < |text| && MatchAt(text, i) == Some(e)
    requires found + KeysOf(text, ScanFrom(text, i)) == Placeholders(text)
    ensures (found + [Key(text, Span(i, e))]) + KeysOf(text, ScanFrom(text, e)) == Placeholders(text)
  {
    NextKey(text, i, e);
    assert found + KeysOf(text, ScanFrom(text, i))
        == (found + [Key(text, Span(i, e))]) + KeysOf(text, ScanFrom(text, e));
  }

  /** The import list stays in step with the identifiers seen. */
  lemma NextImports(importList: seq<string>, found: seq<string>, key: string)
    requires (set imp | imp in importList) == ImportsOf(found)
    ensures var imp := MatchDataType(key).imp;
            var importList' := if imp != "" then importList + [imp] else importList;
            (set x | x in importList') == ImportsOf(found + [key])
  {
    ImportsSnoc(found, key);
    ElementsSnoc(importList, MatchDataType(key).imp);
  }

  /**
   * A text without placeholders yields no dict keys and no imports, and one
   * with a placeholder yields at least one key.
   */
  lemma NoPlaceholdersNoTerms(text: string)
    ensures NoMatchIn(text, 0, |text|) <==> Dedup(Placeholders(text)) == []
    ensures NoMatchIn(text, 0, |text|) ==> ImportsOf(Placeholders(text)) == {}
  {
    NoPlaceholdersIff(text);
    if Placeholders(text) != [] {
      assert Placeholders(text)[0] in Dedup(Placeholders(text));
    }
  }

  /** The loop invariant of `ExtractContractDataTypes`, with the identifiers `found` so far. */
  ghost predicate Inv(text: string, i: nat, terms: OrderedMap<TypeName>, importList: seq<string>, found: seq<string>) {
    && i <= |text|
    && found + KeysOf(text, ScanFrom(text, i)) == Placeholders(text)
    && Tracks(terms, found)
    && (set imp | imp in importList) == ImportsOf(found)
  }

  /** A placeholder at `i`: its identifier is stored and its import collected. */
  lemma InvMatch(text: string, i: nat, e: nat, terms: OrderedMap<TypeName>, importList: seq<string>, found: seq<string>)
    requires Inv(text, i, terms, importList, found) && i < |text| && MatchAt(text, i) == Some(e)
    ensures var key := Key(text, Span(i, e));
            var inferred := MatchDataType(key);
            Inv(text, e, terms.Put(key, inferred.typ),
                if inferred.imp != "" then importList + [inferred.imp] else importList, found + [key])
  {
    var key := Key(text, Span(i, e));
    NextFound(text, i, e, found);
    TracksPut(terms, found, key);
    NextImports(importList, found, key);
  }

  /** No placeholder at `i`: the scan moves one character on. */
  lemma InvSkip(text: string, i: nat, terms: OrderedMap<TypeName>, importList: seq<string>, found: seq<string>)
    requires Inv(text, i, terms, importList, found) && i < |text| && MatchAt(text, i) == None
    ensures Inv(text, i + 1, terms, importList, found)
  {
    assert ScanFrom(text, i) == ScanFrom(text, i + 1);
  }

  /** At the end of the text every placeholder has been seen. */
  lemma InvDone(text: string, i: nat, terms: OrderedMap<TypeName>, importList: seq<string>, found: seq<string>)
    requires Inv(text, i, terms, importList, found) && i >= |text|
    ensures found == Placeholders(text)
    ensures Tracks(terms, Placeholders(text))
    ensures (set imp | imp in importList) == ImportsOf(Placeholders(text))
  {
    assert found + KeysOf(text, ScanFrom(text, i)) == found;
  }

  /**
   * `terms, set(imports)` for the placeholders of `text`: one entry per distinct
   * identifier, in first-occurrence order, mapped to its inferred type, and the
   * set of non-empty imports of all identifiers.
   */
  method ExtractContractDataTypes(text: string) returns (terms: OrderedMap<TypeName>, imports: set<string>)
    ensures terms.Valid()
    ensures terms.order == Dedup(Placeholders(text))
    ensures forall k :: k in terms.entries <==> k in Placeholders(text)
    ensures forall k :: k in terms.entries ==> terms.entries[k] == MatchDataType(k).typ
    ensures imports == ImportsOf(Placeholders(text))
    ensures terms == TermsOf(Placeholders(text))
  {
    terms := Empty();
    var importList: seq<string> := [];
    ghost var found: seq<string> := [];
    var i := 0;
    while i < |text|
      invariant Inv(text, i, terms, importList, found)
      decreases |text| - i
    {
      match MatchAt(text, i)
      case Some(e) =>
        InvMatch(text, i, e, terms, importList, found);
        var key := Key(text, Span(i, e));
        var inferred := MatchDataType(key);
        terms := terms.Put(key, inferred.typ);
        if inferred.imp != "" {
          importList := importList + [inferred.imp];
        }
        found := found + [key];
        i := e;
      case None =>
        InvSkip(text, i, terms, importList, found);
        i := i + 1;
    }
    InvDone(text, i, terms, importList, found);
    TracksAll(terms, found, text);
    TracksIsTermsOf(terms, found);
    imports := set imp | imp in importList;
  }
}
