/**
 * The placeholder pattern `{{(\w+)}}` of extractContractDataTypes
 * (extractDataTypes.py:44-46), with `re.finditer` replaced by an explicit
 * scanner: at each position try two open braces, a maximal run of one or more
 * word characters and two close braces; on success record the match and resume
 * after it, otherwise move on by one character.
 *
 * Because `}` is not a word character, the maximal run is the only run that can
 * be followed by `}}`, so this is what the regex engine matches.
 */
module Scanner {
  import opened Wrappers
  import opened Text

  /** The half-open range `text[start..end]` of one match, braces included. */
  datatype Span = Span(start: nat, end: nat)

  /** `text[start..end]` is `{{`, a word, `}}`. */
  predicate IsMatch(text: string, start: nat, end: nat) {
    && start + 4 < end <= |text|
    && text[start] == '{' && text[start + 1] == '{'
    && IsWord(text[start + 2..end - 2])
    && text[end - 2] == '}' && text[end - 1] == '}'
  }

  /** No match starts anywhere in `[lo, hi)`. */
  ghost predicate NoMatchIn(text: string, lo: nat, hi: nat) {
    forall p: nat, e: nat :: lo <= p < hi ==> !IsMatch(text, p, e)
  }

  /** End of the maximal run of word characters starting at `j`. */
  function WordRunEnd(text: string, j: nat): (r: nat)
    requires j <= |text|
    ensures j <= r <= |text|
    ensures forall p :: j <= p < r ==> IsWordChar(text[p])
    ensures r < |text| ==> !IsWordChar(text[r])
    decreases |text| - j
  {
    if j < |text| && IsWordChar(text[j]) then WordRunEnd(text, j + 1) else j
  }

  /** The pattern tried at position `i`: the end of the match starting there, if any. */
  function MatchAt(text: string, i: nat): (r: Option<nat>)
    ensures r.Some? ==> IsMatch(text, i, r.value)
  {
    if i + 1 < |text| && text[i] == '{' && text[i + 1] == '{' then
      var k := WordRunEnd(text, i + 2);
      if i + 2 < k && k + 1 < |text| && text[k] == '}' && text[k + 1] == '}' then
        Some(k + 2)
      else None
    else None
  }

  /** The single-position matcher finds exactly the matches that start there (and each has one end). */
  lemma MatchAtIff(text: string, i: nat, e: nat)
    ensures IsMatch(text, i, e) <==> MatchAt(text, i) == Some(e)
  {
    if IsMatch(text, i, e) {
      forall p | i + 2 <= p < e - 2
        ensures IsWordChar(text[p])
      {
        assert text[p] == text[i + 2..e - 2][p - (i + 2)];
      }
      assert !IsWordChar(text[e - 2]);
      assert WordRunEnd(text, i + 2) == e - 2;
    }
  }

  /** When the matcher fails at `i`, no match starts at `i`. */
  lemma NoMatchAt(text: string, i: nat)
    requires MatchAt(text, i).None?
    ensures NoMatchIn(text, i, i + 1)
  {
    forall p: nat, e: nat | i <= p < i + 1
      ensures !IsMatch(text, p, e)
    {
      MatchAtIff(text, p, e);
    }
  }

  /**
   * The scan from position `i`, as `finditer` performs it: the matches it
   * reports, left to right.
   */
  function ScanFrom(text: string, i: nat): (spans: seq<Span>)
    requires i <= |text|
    ensures forall k :: 0 <= k < |spans| ==> IsMatch(text, spans[k].start, spans[k].end)
    ensures forall k :: 0 <= k < |spans| ==> i <= spans[k].start
    ensures forall k :: 0 < k < |spans| ==> spans[k - 1].end <= spans[k].start
    decreases |text| - i
  {
    if i == |text| then []
    else
      match MatchAt(text, i)
      case Some(e) => [Span(i, e)] + ScanFrom(text, e)
      case None => ScanFrom(text, i + 1)
  }

  /**
   * An independent description of what `finditer` reports from position `i`:
   * each span is a match, none starts before it since the previous one ended
   * (leftmost), and the next search resumes at its end (non-overlapping); when
   * nothing is left, no match starts in the rest of the text.
   */
  ghost predicate LeftmostMatches(text: string, i: nat, spans: seq<Span>)
    decreases |spans|
  {
    if spans == [] then NoMatchIn(text, i, |text|)
    else
      && IsMatch(text, spans[0].start, spans[0].end)
      && i <= spans[0].start
      && NoMatchIn(text, i, spans[0].start)
      && LeftmostMatches(text, spans[0].end, spans[1..])
  }

  /** The scanner meets the description. */
  lemma {:induction false} ScanIsLeftmost(text: string, i: nat)
    requires i <= |text|
    ensures LeftmostMatches(text, i, ScanFrom(text, i))
    decreases |text| - i
  {
    if i < |text| {
      match MatchAt(text, i)
      case Some(e) =>
        ScanIsLeftmost(text, e);
        assert ScanFrom(text, i)[1..] == ScanFrom(text, e);
      case None =>
        ScanIsLeftmost(text, i + 1);
        NoMatchAt(text, i);
        var sp := ScanFrom(text, i + 1);
        if sp != [] {
          assert NoMatchIn(text, i, sp[0].start);
        }
    }
  }

  /** A non-empty sequence meeting the description starts with a match, which is left in the text. */
  lemma LeftmostNonEmpty(text: string, i: nat, spans: seq<Span>)
    requires LeftmostMatches(text, i, spans)
    ensures spans != [] <==> !NoMatchIn(text, i, |text|)
  {
    if spans != [] {
      assert IsMatch(text, spans[0].start, spans[0].end);
    }
  }

  /** Two sequences meeting the description are the same. */
  lemma {:induction false} LeftmostUnique(text: string, i: nat, a: seq<Span>, b: seq<Span>)
    requires LeftmostMatches(text, i, a) && LeftmostMatches(text, i, b)
    ensures a == b
    decreases |a|
  {
    if a != [] && b != [] {
      assert !(a[0].start < b[0].start) by {
        assert IsMatch(text, a[0].start, a[0].end);
      }
      assert !(b[0].start < a[0].start) by {
        assert IsMatch(text, b[0].start, b[0].end);
      }
      MatchAtIff(text, a[0].start, a[0].end);
      MatchAtIff(text, b[0].start, b[0].end);
      LeftmostUnique(text, a[0].end, a[1..], b[1..]);
      assert a == [a[0]] + a[1..] && b == [b[0]] + b[1..];
    } else {
      // one of them is empty, so no match is left, and the other cannot start with one
      LeftmostNonEmpty(text, i, a);
      LeftmostNonEmpty(text, i, b);
    }
  }

  /** So the description determines the scan: a sequence meets it exactly when it is the scan. */
  lemma ScanCharacterization(text: string, spans: seq<Span>)
    ensures LeftmostMatches(text, 0, spans) <==> spans == ScanFrom(text, 0)
  {
    ScanIsLeftmost(text, 0);
    if LeftmostMatches(text, 0, spans) {
      LeftmostUnique(text, 0, spans, ScanFrom(text, 0));
    }
  }

  /** `match.group()[2:len(match.group()) - 2]`: the identifier between the braces. */
  function Key(text: string, span: Span): (key: string)
    requires IsMatch(text, span.start, span.end)
    ensures IsWord(key)
    ensures OccursAt("{{" + key + "}}", text, span.start)
  {
    var key := text[span.start + 2..span.end - 2];
    assert text[span.start..span.end]
        == text[span.start..span.start + 2] + key + text[span.end - 2..span.end];
    assert text[span.start..span.start + 2] == "{{";
    assert text[span.end - 2..span.end] == "}}";
    key
  }

  /** The identifiers of a sequence of matches, in order. */
  function KeysOf(text: string, spans: seq<Span>): (keys: seq<string>)
    requires forall k :: 0 <= k < |spans| ==> IsMatch(text, spans[k].start, spans[k].end)
    ensures |keys| == |spans|
    ensures forall k :: 0 <= k < |spans| ==> keys[k] == Key(text, spans[k])
  {
    if spans == [] then [] else [Key(text, spans[0])] + KeysOf(text, spans[1..])
  }

  /** The identifiers that `finditer` yields over the whole text, in order, repeats included. */
  function Placeholders(text: string): seq<string> {
    KeysOf(text, ScanFrom(text, 0))
  }

  /**
   * Every identifier is a non-empty word that occurs in the text as
   * `{{identifier}}`, with its case as written.
   */
  lemma PlaceholdersAreWords(text: string)
    ensures forall key :: key in Placeholders(text) ==> IsWord(key) && Contains("{{" + key + "}}", text)
  {
    var spans := ScanFrom(text, 0);
    forall key | key in Placeholders(text)
      ensures IsWord(key) && Contains("{{" + key + "}}", text)
    {
      var k :| 0 <= k < |spans| && Placeholders(text)[k] == key;
      assert key == Key(text, spans[k]);
      assert spans[k].start <= |text|;
    }
  }

  /** No identifiers exactly when no `{{word}}` occurs anywhere in the text. */
  lemma NoPlaceholdersIff(text: string)
    ensures Placeholders(text) == [] <==> NoMatchIn(text, 0, |text|)
  {
    var spans := ScanFrom(text, 0);
    ScanIsLeftmost(text, 0);
    if spans != [] {
      assert IsMatch(text, spans[0].start, spans[0].end);
    }
  }
}
