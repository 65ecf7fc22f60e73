/**
 * A Python dict with string keys, as extractContractDataTypes uses `terms`
 * (extractDataTypes.py:42, 52): assignment `d[k] = v` overwrites the value
 * of a present key in place and appends a new key at the end, so iteration
 * follows first-insertion order.
 */
module OrderedMaps {

  /** Keys in insertion order, and the key-to-value mapping. */
  datatype OrderedMap<V> = OrderedMap(order: seq<string>, entries: map<string, V>) {

    /** Each key is listed once, and the listed keys are the mapped ones. */
    ghost predicate Valid() {
      && Distinct(order)
      && forall k :: k in entries <==> k in order
    }

    /** `d[k] = v`. */
    function Put(k: string, v: V): (m: OrderedMap<V>)
      requires Valid()
      ensures m.Valid()
      ensures m.entries == entries[k := v]
      ensures k in entries ==> m.order == order
      ensures k !in entries ==> m.order == order + [k]
    {
      OrderedMap(if k in entries then order else order + [k], entries[k := v])
    }
  }

  /** `{}`: the empty dict. */
  function Empty<V>(): (m: OrderedMap<V>)
    ensures m.Valid() && m.order == [] && m.entries == map[]
  {
    OrderedMap([], map[])
  }

  ghost predicate Distinct(s: seq<string>) {
    forall i, j :: 0 <= i < j < |s| ==> s[i] != s[j]
  }

  /** The elements of `s` with repeats dropped, each kept where it first occurs. */
  function Dedup(s: seq<string>): (r: seq<string>)
    ensures Distinct(r)
    ensures forall x :: x in r <==> x in s
    ensures |r| <= |s|
    decreases |s|
  {
    if s == [] then []
    else
      var d := Dedup(s[..|s| - 1]);
      if s[|s| - 1] in d then d else d + [s[|s| - 1]]
  }

  /** Index of the first occurrence of `x` in `s`. */
  function FirstIndex(s: seq<string>, x: string): (i: nat)
    requires x in s
    ensures i < |s| && s[i] == x && x !in s[..i]
  {
    if s[0] == x then 0 else 1 + FirstIndex(s[1..], x)
  }

  /** A first occurrence in a prefix is the first occurrence in the whole. */
  lemma FirstIndexPrefix(s: seq<string>, n: nat, x: string)
    requires n <= |s| && x in s[..n]
    ensures FirstIndex(s, x) == FirstIndex(s[..n], x)
  {
    var i := FirstIndex(s[..n], x);
    var j := FirstIndex(s, x);
    assert s[i] == x;
    forall k | 0 <= k < i
      ensures s[k] != x
    {
      assert s[k] == s[..n][..i][k];
    }
    forall k | 0 <= k < j
      ensures s[k] != x
    {
      assert s[k] == s[..j][k];
    }
  }

  /** The kept elements appear in the order of their first occurrences. */
  lemma {:induction false} DedupFirstOccurrenceOrder(s: seq<string>, a: nat, b: nat)
    requires a < b < |Dedup(s)|
    ensures FirstIndex(s, Dedup(s)[a]) < FirstIndex(s, Dedup(s)[b])
    decreases |s|
  {
    var n := |s| - 1;
    var p := s[..n];
    var d := Dedup(p);
    var x, y := Dedup(s)[a], Dedup(s)[b];
    assert x in d;
    FirstIndexPrefix(s, n, x);
    if b < |d| {
      FirstIndexPrefix(s, n, y);
      DedupFirstOccurrenceOrder(p, a, b);
    } else {
      // y is the last element, new in s, so it first occurs at the end
      assert y == s[n] && y !in p;
      forall k | 0 <= k < n
        ensures s[k] != y
      {
        assert s[k] == p[k];
      }
      assert FirstIndex(s, y) == n;
    }
  }

  /** Dedup keeps an element seen before untouched, and appends a new one. */
  lemma DedupSnoc(s: seq<string>, x: string)
    ensures Dedup(s + [x]) == if x in s then Dedup(s) else Dedup(s) + [x]
  {
    assert (s + [x])[..|s|] == s;
  }
}
