/** The search that `importFromFile` runs over a parsed JSON document:
    every string leaf that starts with the TOTP URI scheme, parses and can
    generate a code becomes a descriptor, in depth-first document order. */
module Importer {
  import opened Foreign

  /** A JSON value as `json.load` returns it: a list, a dictionary whose
      entries keep their document order, a string, or any other scalar. */
  datatype Json =
    | JList(items: seq<Json>)
    | JDict(entries: seq<(string, Json)>)
    | JStr(text: string)
    | JOther

  const TOTP_SCHEME: string := "otpauth://totp"

  /** The string `s` is kept as the descriptor `t`. */
  predicate Accepts(p: Primitives, s: string, t: Totp)
  {
    StartsWith(s, TOTP_SCHEME) && p.parseUri(s) == Some(t) && p.generates(t)
  }

  /** What one string leaf contributes: its descriptor, or nothing when the
      prefix does not match or parsing or code generation raises ValueError. */
  function Yield(p: Primitives, s: string): (r: seq<Totp>)
    ensures |r| <= 1
    ensures forall t :: t in r <==> Accepts(p, s, t)
  {
    if StartsWith(s, TOTP_SCHEME) && p.parseUri(s).Some? && p.generates(p.parseUri(s).value)
    then [p.parseUri(s).value]
    else []
  }

  /** The recursive generator: lists element by element, dictionaries by
      value (keys ignored), strings through `Yield`. */
  function Search(p: Primitives, j: Json): (r: seq<Totp>)
    ensures forall t :: t in r ==> p.generates(t)
    decreases j
  {
    match j
    case JList(items) => SearchItems(p, items)
    case JDict(entries) => SearchValues(p, entries)
    case JStr(s) => Yield(p, s)
    case JOther => []
  }

  function SearchItems(p: Primitives, items: seq<Json>): (r: seq<Totp>)
    ensures forall t :: t in r ==> p.generates(t)
    decreases items
  {
    if items == [] then [] else Search(p, items[0]) + SearchItems(p, items[1..])
  }

  function SearchValues(p: Primitives, entries: seq<(string, Json)>): (r: seq<Totp>)
    ensures forall t :: t in r ==> p.generates(t)
    decreases entries
  {
    if entries == [] then []
    else
      assert entries decreases to entries[0];
      assert entries[0] decreases to entries[0].1;
      Search(p, entries[0].1) + SearchValues(p, entries[1..])
  }

  // Reference definition: first flatten the document to its string leaves,
  // then keep the accepted ones.

  /** Every string leaf of the document, in depth-first order. */
  function Leaves(j: Json): seq<string>
    decreases j
  {
    match j
    case JList(items) => ItemLeaves(items)
    case JDict(entries) => ValueLeaves(entries)
    case JStr(s) => [s]
    case JOther => []
  }

  function ItemLeaves(items: seq<Json>): seq<string>
    decreases items
  {
    if items == [] then [] else Leaves(items[0]) + ItemLeaves(items[1..])
  }

  function ValueLeaves(entries: seq<(string, Json)>): seq<string>
    decreases entries
  {
    if entries == [] then []
    else
      assert entries decreases to entries[0];
      assert entries[0] decreases to entries[0].1;
      Leaves(entries[0].1) + ValueLeaves(entries[1..])
  }

  /** The accepted strings of `strs`, as descriptors, in order. */
  function Select(p: Primitives, strs: seq<string>): seq<Totp>
  {
    if strs == [] then [] else Yield(p, strs[0]) + Select(p, strs[1..])
  }

  lemma {:induction false} SelectAppend(p: Primitives, a: seq<string>, b: seq<string>)
    ensures Select(p, a + b) == Select(p, a) + Select(p, b)
  {
    if a == [] {
      assert a + b == b;
    } else {
      assert (a + b)[1..] == a[1..] + b;
      SelectAppend(p, a[1..], b);
    }
  }

  /** Select keeps exactly the accepted strings: each result comes from an
      accepted string of the input, and each accepted string gives one. */
  lemma {:induction false} SelectKeepsExactlyAccepted(p: Primitives, strs: seq<string>, t: Totp)
    ensures t in Select(p, strs) <==> exists s :: s in strs && Accepts(p, s, t)
  {
    if strs != [] {
      SelectKeepsExactlyAccepted(p, strs[1..], t);
      if t in Yield(p, strs[0]) {
        assert Accepts(p, strs[0], t);
      }
      if t in Select(p, strs[1..]) {
        var s :| s in strs[1..] && Accepts(p, s, t);
        assert s in strs;
      }
      if exists s :: s in strs && Accepts(p, s, t) {
        var s :| s in strs && Accepts(p, s, t);
        if s != strs[0] {
          assert s in strs[1..];
        }
      }
    }
  }

  /** The generator yields in depth-first order exactly what selecting over
      the flattened string leaves yields. */
  lemma {:induction false} SearchIsSelectOfLeaves(p: Primitives, j: Json)
    ensures Search(p, j) == Select(p, Leaves(j))
    decreases j
  {
    match j
    case JList(items) => SearchItemsIsSelect(p, items);
    case JDict(entries) => SearchValuesIsSelect(p, entries);
    case JStr(s) =>
      assert [s][1..] == [];
    case JOther =>
  }

  lemma {:induction false} SearchItemsIsSelect(p: Primitives, items: seq<Json>)
    ensures SearchItems(p, items) == Select(p, ItemLeaves(items))
    decreases items
  {
    if items != [] {
      SearchIsSelectOfLeaves(p, items[0]);
      SearchItemsIsSelect(p, items[1..]);
      SelectAppend(p, Leaves(items[0]), ItemLeaves(items[1..]));
    }
  }

  lemma {:induction false} SearchValuesIsSelect(p: Primitives, entries: seq<(string, Json)>)
    ensures SearchValues(p, entries) == Select(p, ValueLeaves(entries))
    decreases entries
  {
    if entries != [] {
      assert entries decreases to entries[0];
      assert entries[0] decreases to entries[0].1;
      SearchIsSelectOfLeaves(p, entries[0].1);
      SearchValuesIsSelect(p, entries[1..]);
      SelectAppend(p, Leaves(entries[0].1), ValueLeaves(entries[1..]));
    }
  }

  /** A descriptor is found iff some string leaf of the document starts
      with the scheme, parses to it and generates a code. */
  lemma SearchFindsExactlyAccepted(p: Primitives, j: Json, t: Totp)
    ensures t in Search(p, j) <==> exists s :: s in Leaves(j) && Accepts(p, s, t)
  {
    SearchIsSelectOfLeaves(p, j);
    SelectKeepsExactlyAccepted(p, Leaves(j), t);
  }

  /** Dictionary keys play no part: two dictionaries with the same values
      in the same order yield the same descriptors. */
  lemma {:induction false} SearchIgnoresKeys(p: Primitives, entries: seq<(string, Json)>, entries': seq<(string, Json)>)
    requires |entries| == |entries'|
    requires forall i :: 0 <= i < |entries| ==> entries[i].1 == entries'[i].1
    ensures Search(p, JDict(entries)) == Search(p, JDict(entries'))
    decreases entries
  {
    if entries != [] {
      SearchIgnoresKeys(p, entries[1..], entries'[1..]);
      assert SearchValues(p, entries[1..]) == SearchValues(p, entries'[1..]);
    }
  }
}
