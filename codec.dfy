/**
 * The mapping codec of the PureResponse client: conversion between a nested,
 * string-keyed mapping and the service's "paintArray" wire shape, an array of
 * key/value pairs whose values are tagged either `str` (a string) or `arr`
 * (a nested paintArray).
 *
 * The recursion is given twice: as specification functions (Encode, Decode and
 * their helpers) and as the loops the client runs (BuildWire, ReadWire), which
 * are proved to compute exactly those functions.
 */
module Codec {
  import opened Wrappers

  // ---------------------------------------------------------------------------
  // Request side: the caller's mapping
  // ---------------------------------------------------------------------------

  /** A value held under a key of a request mapping. A non-string scalar
      (a number, a boolean, ...) is carried with the text `str()` gives it. */
  datatype Value = Text(s: string) | Scalar(repr: string) | Nested(entries: seq<Entry>)

  /** One key of a mapping with its value; a mapping is a sequence of entries
      in the order the mapping iterates over its keys. */
  datatype Entry = Entry(key: string, value: Value)

  // ---------------------------------------------------------------------------
  // Wire side: paintArray and paintKeyValuePair
  // ---------------------------------------------------------------------------

  /** A paintArray: `Null` is the SOAP null, which has no `pairs` at all. */
  datatype Wire = Null | Array(pairs: seq<Pair>)

  /** A paintKeyValuePair. */
  datatype Pair = Pair(key: string, value: Tagged)

  /** The value of a pair: tagged `str`, tagged `arr`, or carrying neither tag. */
  datatype Tagged = Str(s: string) | Arr(arr: Wire) | Untagged

  // ---------------------------------------------------------------------------
  // Response side: the decoded mapping
  // ---------------------------------------------------------------------------

  /** A decoded value: a string or a nested mapping. */
  datatype Decoded = DStr(s: string) | DMap(m: map<string, Decoded>)

  type Mapping = map<string, Decoded>

  // ---------------------------------------------------------------------------
  // Keys: `key.encode('ascii', 'ignore')`
  // ---------------------------------------------------------------------------

  predicate IsAsciiChar(c: char) {
    (c as int) < 128
  }

  predicate IsAscii(s: string) {
    forall i :: 0 <= i < |s| ==> IsAsciiChar(s[i])
  }

  /** The key as sent on the wire: every non-ASCII character is dropped,
      the others are kept in order. */
  function StripNonAscii(s: string): (r: string)
    ensures |r| <= |s|
    ensures IsAscii(r)
    ensures forall c :: c in r <==> c in s && IsAsciiChar(c)
    ensures |r| == |s| <==> IsAscii(s)
    ensures IsAscii(s) ==> r == s
    ensures |s| == 1 ==> r == (if IsAsciiChar(s[0]) then s else [])
  {
    if s == [] then []
    else
      var rest := StripNonAscii(s[1..]);
      assert forall c :: c in s <==> c == s[0] || c in s[1..];
      if IsAsciiChar(s[0]) then
        assert IsAscii(s) <==> IsAscii(s[1..]) by {
          if IsAscii(s[1..]) {
            forall i | 0 <= i < |s| ensures IsAsciiChar(s[i]) {
              if i > 0 { assert s[i] == s[1..][i - 1]; }
            }
          }
        }
        [s[0]] + rest
      else
        rest
  }

  /** Stripping works character by character: stripping a concatenation is
      the concatenation of the stripped parts. With the one-character case
      above this fixes the result completely, order and repeats included. */
  lemma {:induction false} StripConcat(a: string, b: string)
    ensures StripNonAscii(a + b) == StripNonAscii(a) + StripNonAscii(b)
  {
    if a == [] {
      assert a + b == b;
    } else {
      var ab := a + b;
      assert ab[0] == a[0];
      assert ab[1..] == a[1..] + b;
      StripConcat(a[1..], b);
      var x, y := StripNonAscii(a[1..]), StripNonAscii(b);
      if IsAsciiChar(a[0]) {
        assert StripNonAscii(ab) == [a[0]] + StripNonAscii(ab[1..]);
        assert [a[0]] + (x + y) == ([a[0]] + x) + y;
      }
    }
  }

  // ---------------------------------------------------------------------------
  // Encoding (`_dict_to_ptarr`)
  // ---------------------------------------------------------------------------

  /** The wire form of a mapping: an empty mapping is sent as the SOAP null;
      any other mapping as a paintArray with one pair per key. */
  function Encode(entries: seq<Entry>): (w: Wire)
    decreases entries, 1
    ensures w.Null? <==> entries == []
  {
    if entries == [] then Null else Array(EncodePairs(entries))
  }

  /** The pairs of a non-empty mapping, in the mapping's iteration order. */
  function EncodePairs(entries: seq<Entry>): (ps: seq<Pair>)
    decreases entries, 0
    ensures |ps| == |entries|
    ensures forall i :: 0 <= i < |entries| ==> ps[i] == EncodePair(entries[i])
  {
    if entries == [] then []
    else EncodePairs(entries[..|entries| - 1]) + [EncodePair(entries[|entries| - 1])]
  }

  /** The pair for one key: the key loses its non-ASCII characters; a nested
      mapping is tagged `arr`, a string is tagged `str` verbatim, and any other
      scalar is tagged `str` with its `str()` text. No pair is left untagged. */
  function EncodePair(e: Entry): (p: Pair)
    decreases e
    ensures p.key == StripNonAscii(e.key)
    ensures p.value.Arr? <==> e.value.Nested?
    ensures !p.value.Untagged?
    ensures e.value.Text? ==> p.value == Str(e.value.s)
    ensures e.value.Scalar? ==> p.value == Str(e.value.repr)
    ensures e.value.Nested? ==> p.value == Arr(Encode(e.value.entries))
  {
    Pair(StripNonAscii(e.key), EncodeValue(e.value))
  }

  /** The tagged value of one pair: a nested mapping is tagged `arr`, every
      scalar `str`, and nothing is left untagged. */
  function EncodeValue(v: Value): (t: Tagged)
    decreases v
    ensures !t.Untagged?
    ensures t.Arr? <==> v.Nested?
    ensures t.Str? ==> t.s == (if v.Text? then v.s else v.repr)
  {
    match v
    case Nested(es) => Arr(Encode(es))
    case Text(s) => Str(s)
    case Scalar(r) => Str(r)
  }

  /** The wire form of an optional argument: Python's `not dict_` sends both
      an absent mapping and an empty one as the SOAP null. */
  function EncodeArgument(d: Option<seq<Entry>>): (w: Wire)
    ensures w.Null? <==> d.None? || d.value == []
    ensures d.Some? ==> w == Encode(d.value)
  {
    match d
    case None => Null
    case Some(es) => Encode(es)
  }

  // ---------------------------------------------------------------------------
  // Decoding (`_ptarr_to_dict`)
  // ---------------------------------------------------------------------------

  /** The mapping a paintArray stands for. A wire value without pairs (the
      SOAP null) decodes to "absent", never to an empty mapping. */
  function Decode(w: Wire): (r: Option<Mapping>)
    decreases w, 1
    ensures r.None? <==> w.Null?
    ensures w == Array([]) ==> r == Some(map[])
  {
    match w
    case Null => None
    case Array(ps) => Some(DecodePairs(ps))
  }

  /** The pairs read in order into a mapping; a later pair for a key
      overwrites an earlier one, and a pair with neither tag is skipped. */
  function DecodePairs(ps: seq<Pair>): (r: Mapping)
    decreases ps, 0
    ensures |r| <= |ps|
  {
    if ps == [] then map[]
    else
      var before := DecodePairs(ps[..|ps| - 1]);
      var last := ps[|ps| - 1];
      match DecodeTagged(last.value)
      case None => before
      case Some(d) => before[last.key := d]
  }

  /** The value one pair contributes, or None when it contributes nothing.
      A nested array that is null decodes to an empty mapping, not to absent. */
  function DecodeTagged(t: Tagged): (r: Option<Decoded>)
    decreases t
    ensures r.None? <==> t.Untagged?
    ensures t.Str? ==> r == Some(DStr(t.s))
    ensures t.Arr? && t.arr.Null? ==> r == Some(DMap(map[]))
    ensures t.Arr? && t.arr.Array? ==> r == Some(DMap(DecodePairs(t.arr.pairs)))
  {
    match t
    case Arr(w) =>
      (match Decode(w)
       case None => Some(DMap(map[]))
       case Some(m) => Some(DMap(m)))
    case Str(s) => Some(DStr(s))
    case Untagged => None
  }

  /** Pair `i` is the last pair of `ps` with key `k` that carries a tag. */
  ghost predicate LastTaggedAt(ps: seq<Pair>, k: string, i: int) {
    0 <= i < |ps| && ps[i].key == k && !ps[i].value.Untagged? &&
    forall j :: i < j < |ps| ==> ps[j].key != k || ps[j].value.Untagged?
  }

  lemma DecodePairsSnoc(ps: seq<Pair>, p: Pair)
    ensures DecodePairs(ps + [p]) ==
      match DecodeTagged(p.value)
      case None => DecodePairs(ps)
      case Some(d) => DecodePairs(ps)[p.key := d]
  {
  }

  /** The decoder's rule stated without its loop: a key is present exactly
      when some pair for it carries a tag, and its value is the one decoded
      from the last such pair. */
  lemma {:induction false} DecodeLastWins(ps: seq<Pair>, k: string)
    ensures k in DecodePairs(ps) <==> exists i :: LastTaggedAt(ps, k, i)
    ensures forall i :: LastTaggedAt(ps, k, i) ==>
      k in DecodePairs(ps) && DecodePairs(ps)[k] == DecodeTagged(ps[i].value).value
  {
    if ps != [] {
      var n := |ps| - 1;
      var init, last := ps[..n], ps[n];
      assert ps == init + [last];
      DecodePairsSnoc(init, last);
      DecodeLastWins(init, k);
      if last.key == k && !last.value.Untagged? {
        assert LastTaggedAt(ps, k, n);
        forall i | LastTaggedAt(ps, k, i) ensures i == n { }
      } else {
        forall i ensures LastTaggedAt(ps, k, i) <==> LastTaggedAt(init, k, i) {
          if LastTaggedAt(init, k, i) {
            assert ps[i] == init[i];
            forall j | i < j < |ps| ensures ps[j].key != k || ps[j].value.Untagged? {
              if j < n { assert ps[j] == init[j]; }
            }
          }
          if LastTaggedAt(ps, k, i) {
            assert i < n && ps[i] == init[i];
            forall j | i < j < |init| ensures init[j].key != k || init[j].value.Untagged? {
              assert ps[j] == init[j];
            }
          }
        }
      }
    }
  }

  // ---------------------------------------------------------------------------
  // Round trip
  // ---------------------------------------------------------------------------

  /** A mapping whose keys are ASCII and distinct, at every level; a Python
      dict always has distinct keys. */
  ghost predicate Canonical(v: Value)
    decreases v
  {
    match v
    case Nested(es) => CanonicalEntries(es)
    case _ => true
  }

  ghost predicate CanonicalEntries(es: seq<Entry>)
    decreases es
  {
    (forall i :: 0 <= i < |es| ==> IsAscii(es[i].key) && Canonical(es[i].value)) &&
    (forall i, j :: 0 <= i < j < |es| ==> es[i].key != es[j].key)
  }

  /** What a value means once scalar types are forgotten: strings and the
      `str()` text of other scalars are both strings, mappings stay mappings. */
  ghost function Meaning(v: Value): Decoded
    requires Canonical(v)
    decreases v
  {
    match v
    case Text(s) => DStr(s)
    case Scalar(r) => DStr(r)
    case Nested(es) => DMap(MeaningOf(es))
  }

  /** The mapping a sequence of entries stands for: each key maps to the
      meaning of its value. */
  ghost function MeaningOf(es: seq<Entry>): Mapping
    requires CanonicalEntries(es)
    decreases es
  {
    map i | 0 <= i < |es| :: es[i].key := Meaning(es[i].value)
  }

  lemma MeaningOfSnoc(es: seq<Entry>, e: Entry)
    requires CanonicalEntries(es + [e])
    ensures CanonicalEntries(es) && Canonical(e.value)
    ensures MeaningOf(es + [e]) == MeaningOf(es)[e.key := Meaning(e.value)]
  {
    var all := es + [e];
    assert all[|es|] == e;
    forall i | 0 <= i < |es| ensures es[i] == all[i] { }
    assert CanonicalEntries(es);
    var lhs, rhs := MeaningOf(all), MeaningOf(es)[e.key := Meaning(e.value)];
    forall k ensures k in lhs <==> k in rhs {
      if k in lhs {
        var i :| 0 <= i < |all| && all[i].key == k;
        if i < |es| { assert es[i].key == k; }
      }
    }
    forall k | k in lhs ensures lhs[k] == rhs[k] {
      var i :| 0 <= i < |all| && all[i].key == k;
      if i < |es| { assert es[i] == all[i]; }
    }
  }

  /** Decoding the encoding of a mapping with ASCII keys gives the mapping
      back, with every scalar turned into its string; an empty mapping comes
      back as "absent", since it travels as the SOAP null. */
  lemma {:induction false} RoundTrip(es: seq<Entry>)
    requires CanonicalEntries(es)
    ensures Decode(Encode(es)) == if es == [] then None else Some(MeaningOf(es))
    decreases es, 1
  {
    if es != [] {
      PairsRoundTrip(es);
    }
  }

  lemma {:induction false} PairsRoundTrip(es: seq<Entry>)
    requires CanonicalEntries(es)
    ensures DecodePairs(EncodePairs(es)) == MeaningOf(es)
    decreases es, 0
  {
    if es == [] {
      assert MeaningOf(es) == map[];
    } else {
      var n := |es| - 1;
      var init, last := es[..n], es[n];
      assert es == init + [last];
      MeaningOfSnoc(init, last);
      PairsRoundTrip(init);
      assert EncodePairs(es) == EncodePairs(init) + [EncodePair(last)];
      DecodePairsSnoc(EncodePairs(init), EncodePair(last));
      ValueRoundTrip(last);
    }
  }

  lemma {:induction false} ValueRoundTrip(e: Entry)
    requires Canonical(e.value)
    ensures IsAscii(e.key) ==> EncodePair(e).key == e.key
    ensures DecodeTagged(EncodePair(e).value) == Some(Meaning(e.value))
    decreases e
  {
    match e.value
    case Nested(es) =>
      RoundTrip(es);
      if es == [] {
        assert MeaningOf(es) == map[];
      }
    case Text(_) =>
    case Scalar(_) =>
  }

  /** The round trip for keys that are not ASCII: as long as the stripped keys
      of a mapping stay distinct, decoding its encoding gives each stripped
      key the meaning of its value. */
  /** The mapping an entry sequence stands for once its keys are stripped:
      each stripped key maps to the meaning of its value. */
  ghost function StrippedMeaning(es: seq<Entry>): Mapping
    requires forall i :: 0 <= i < |es| ==> Canonical(es[i].value)
    requires forall i, j :: 0 <= i < j < |es| ==> StripNonAscii(es[i].key) != StripNonAscii(es[j].key)
  {
    map i | 0 <= i < |es| :: StripNonAscii(es[i].key) := Meaning(es[i].value)
  }

  lemma {:induction false} StrippedRoundTrip(es: seq<Entry>)
    requires es != []
    requires forall i :: 0 <= i < |es| ==> Canonical(es[i].value)
    requires forall i, j :: 0 <= i < j < |es| ==> StripNonAscii(es[i].key) != StripNonAscii(es[j].key)
    ensures Decode(Encode(es)) == Some(StrippedMeaning(es))
  {
    StrippedPairs(es);
    assert Encode(es) == Array(EncodePairs(es));
  }

  lemma {:induction false} StrippedPairs(es: seq<Entry>)
    requires forall i :: 0 <= i < |es| ==> Canonical(es[i].value)
    requires forall i, j :: 0 <= i < j < |es| ==> StripNonAscii(es[i].key) != StripNonAscii(es[j].key)
    ensures DecodePairs(EncodePairs(es)) == StrippedMeaning(es)
  {
    StrippedKeysCovered(es);
    StrippedKeysAgree(es);
    SameMapping(DecodePairs(EncodePairs(es)), StrippedMeaning(es));
  }

  /** Two mappings with the same keys and the same values are equal; stated
      apart so that the round-trip proof needs no other fact at that step. */
  lemma SameMapping(m: Mapping, n: Mapping)
    requires forall k :: k in m ==> k in n
    requires forall k :: k in n ==> k in m && m[k] == n[k]
    ensures m == n
  {
  }

  /** Every key read back is the stripped key of some entry. */
  lemma {:induction false} StrippedKeysCovered(es: seq<Entry>)
    requires forall i :: 0 <= i < |es| ==> Canonical(es[i].value)
    requires forall i, j :: 0 <= i < j < |es| ==> StripNonAscii(es[i].key) != StripNonAscii(es[j].key)
    ensures forall k :: k in DecodePairs(EncodePairs(es)) ==> k in StrippedMeaning(es)
  {
    forall k | k in DecodePairs(EncodePairs(es)) ensures k in StrippedMeaning(es) {
      PairsKeys(es);
      var i :| 0 <= i < |es| && EncodePair(es[i]).key == k;
    }
  }

  /** Every stripped key is read back, with the meaning of its entry's value. */
  lemma {:induction false} StrippedKeysAgree(es: seq<Entry>)
    requires forall i :: 0 <= i < |es| ==> Canonical(es[i].value)
    requires forall i, j :: 0 <= i < j < |es| ==> StripNonAscii(es[i].key) != StripNonAscii(es[j].key)
    ensures forall k :: k in StrippedMeaning(es) ==>
      k in DecodePairs(EncodePairs(es)) && DecodePairs(EncodePairs(es))[k] == StrippedMeaning(es)[k]
  {
    forall k | k in StrippedMeaning(es)
      ensures k in DecodePairs(EncodePairs(es)) && DecodePairs(EncodePairs(es))[k] == StrippedMeaning(es)[k]
    {
      var i :| 0 <= i < |es| && StripNonAscii(es[i].key) == k;
      StrippedValue(es, i);
    }
  }

  /** The pair of entry `i` is the last one with its key, so its value is the
      one the decoder keeps. */
  lemma {:induction false} StrippedValue(es: seq<Entry>, i: int)
    requires 0 <= i < |es| && Canonical(es[i].value)
    requires forall j :: i < j < |es| ==> StripNonAscii(es[i].key) != StripNonAscii(es[j].key)
    ensures StripNonAscii(es[i].key) in DecodePairs(EncodePairs(es))
    ensures DecodePairs(EncodePairs(es))[StripNonAscii(es[i].key)] == Meaning(es[i].value)
  {
    var ps, k := EncodePairs(es), StripNonAscii(es[i].key);
    assert LastTaggedAt(ps, k, i);
    DecodeLastWins(ps, k);
    ValueRoundTrip(es[i]);
  }

  /** Whatever the keys, the decoded encoding of a non-empty mapping has
      exactly the mapping's keys with their non-ASCII characters dropped. */
  lemma EncodedKeys(es: seq<Entry>)
    requires es != []
    ensures Decode(Encode(es)).Some?
    ensures forall k :: k in Decode(Encode(es)).value <==>
      exists i :: 0 <= i < |es| && EncodePair(es[i]).key == k
  {
    PairsKeys(es);
  }

  lemma {:induction false} PairsKeys(es: seq<Entry>)
    ensures forall k :: k in DecodePairs(EncodePairs(es)) <==>
      exists i :: 0 <= i < |es| && EncodePair(es[i]).key == k
  {
    if es != [] {
      var n := |es| - 1;
      var init, last := es[..n], es[n];
      assert es == init + [last];
      PairsKeys(init);
      var p := EncodePair(last);
      var before := DecodePairs(EncodePairs(init));
      assert DecodePairs(EncodePairs(es)) == before[p.key := DecodeTagged(p.value).value] by {
        assert EncodePairs(es) == EncodePairs(init) + [p];
        DecodePairsSnoc(EncodePairs(init), p);
      }
      forall k ensures k in DecodePairs(EncodePairs(es)) <==>
        exists i :: 0 <= i < |es| && EncodePair(es[i]).key == k
      {
        if k in before {
          var i :| 0 <= i < |init| && EncodePair(init[i]).key == k;
          assert es[i] == init[i];
        }
        if exists i :: 0 <= i < |es| && EncodePair(es[i]).key == k {
          var i :| 0 <= i < |es| && EncodePair(es[i]).key == k;
          if i < n { assert es[i] == init[i]; }
        }
      }
    }
  }

  // ---------------------------------------------------------------------------
  // The client's loops
  // ---------------------------------------------------------------------------

  /** `_dict_to_ptarr`: builds the paintArray pair by pair, recursing into
      nested mappings. */
  method BuildWire(d: Option<seq<Entry>>) returns (w: Wire)
    decreases if d.Some? then d.value else []
    ensures w == EncodeArgument(d)
  {
    if d.None? || d.value == [] {
      return Null;
    }
    var entries := d.value;
    var pairs: seq<Pair> := [];
    for i := 0 to |entries|
      invariant pairs == EncodePairs(entries[..i])
    {
      var e := entries[i];
      var val: Tagged;
      match e.value {
        case Nested(inner) =>
          var sub := BuildWire(Some(inner));
          val := Arr(sub);
        case Text(s) =>
          val := Str(s);
        case Scalar(r) =>
          val := Str(r);
      }
      assert val == EncodeValue(e.value);
      assert entries[..i + 1] == entries[..i] + [e];
      assert EncodePairs(entries[..i + 1]) == EncodePairs(entries[..i]) + [EncodePair(e)];
      pairs := pairs + [Pair(StripNonAscii(e.key), val)];
    }
    assert entries[..|entries|] == entries;
    w := Array(pairs);
  }

  /** `_ptarr_to_dict`: fills a mapping pair by pair, recursing into nested
      arrays. */
  method ReadWire(w: Wire) returns (r: Option<Mapping>)
    decreases w
    ensures r == Decode(w)
  {
    if w.Null? {
      return None;
    }
    var m: Mapping := map[];
    for i := 0 to |w.pairs|
      invariant m == DecodePairs(w.pairs[..i])
    {
      var p := w.pairs[i];
      assert w.pairs[..i + 1] == w.pairs[..i] + [p];
      DecodePairsSnoc(w.pairs[..i], p);
      match p.value {
        case Arr(sub) =>
          if sub.Null? {
            m := m[p.key := DMap(map[])];
          } else {
            var inner := ReadWire(sub);
            m := m[p.key := DMap(inner.value)];
          }
        case Str(s) =>
          m := m[p.key := DStr(s)];
        case Untagged =>
      }
    }
    assert w.pairs[..|w.pairs|] == w.pairs;
    r := Some(m);
  }
}
