/** The query-string encoder (`constructQueryParametersString`): every entry
    of the filter is written as `key=value&`, values verbatim, in the order
    the map happens to yield its entries. */
module QueryEncoding {
  import opened Wrappers
  import opened Onionoo

  /** One entry as the encoder writes it: the key, '=', the value and a
      terminating '&'. Nothing is percent-encoded. */
  function Segment(key: string, val: string): string
  {
    key + "=" + val + "&"
  }

  /** The number of characters `Segment(key, val)` takes. */
  function SegmentLength(key: string, val: string): nat
  {
    |key| + |val| + 2
  }

  /** `order` lists every key of `keys` exactly once: one possible order in
      which a `range` loop over a Go map visits its keys. */
  ghost predicate IsEnumeration(order: seq<string>, keys: set<string>)
  {
    && (forall i :: 0 <= i < |order| ==> order[i] in keys)
    && (forall k :: k in keys ==> k in order)
    && (forall i, j :: 0 <= i < j < |order| ==> order[i] != order[j])
  }

  /** The text the encoder has written once it has visited the keys of `m`
      in the order `order`. */
  function Serialize(m: map<string, string>, order: seq<string>): (s: string)
    requires forall i :: 0 <= i < |order| ==> order[i] in m
    ensures order == [] <==> s == ""
    ensures order != [] ==> s[|s| - 1] == '&'
  {
    if order == [] then ""
    else
      var last := order[|order| - 1];
      Serialize(m, order[..|order| - 1]) + Segment(last, m[last])
  }

  /** The total number of characters the entries of `m` take once encoded,
      independent of the order they are written in. */
  ghost function EncodedLength(m: map<string, string>): nat
    decreases m.Keys
  {
    if m == map[] then 0
    else
      var k :| k in m;
      SegmentLength(k, m[k]) + EncodedLength(m - {k})
  }

  /** `s` is a string the encoder may return for `query`: empty for a nil
      map, otherwise the segments of all entries in some order. */
  ghost predicate IsEncoding(s: string, query: Query)
  {
    if query.None? then s == ""
    else exists order :: IsEnumeration(order, query.value.Keys) && s == Serialize(query.value, order)
  }

  /** The encoder. It appends one segment per entry to a buffer, visiting
      the entries in an order the model leaves open, as Go's map iteration
      does. */
  method ConstructQueryParametersString(query: Query) returns (s: string)
    ensures IsEncoding(s, query)
  {
    if query.None? {
      return "";
    }
    var m := query.value;
    var buffer := "";
    var unvisited := m.Keys;
    ghost var visited: seq<string> := [];
    while unvisited != {}
      invariant unvisited <= m.Keys
      invariant IsEnumeration(visited, m.Keys - unvisited)
      invariant buffer == Serialize(m, visited)
      decreases unvisited
    {
      var key :| key in unvisited;
      buffer := buffer + Segment(key, m[key]);
      visited := visited + [key];
      unvisited := unvisited - {key};
    }
    assert IsEnumeration(visited, m.Keys) && buffer == Serialize(m, visited);
    s := buffer;
  }

  /** Removing any one entry from `m` takes away exactly that entry's share
      of `EncodedLength`, whichever entry the definition happened to pick. */
  lemma {:induction false} EncodedLengthRemove(m: map<string, string>, x: string)
    requires x in m
    ensures EncodedLength(m) == SegmentLength(x, m[x]) + EncodedLength(m - {x})
    decreases m.Keys
  {
    var k :| k in m && EncodedLength(m) == SegmentLength(k, m[k]) + EncodedLength(m - {k});
    if k != x {
      var mk, mx := m - {k}, m - {x};
      EncodedLengthRemove(mk, x);
      EncodedLengthRemove(mx, k);
      assert mk - {x} == mx - {k};
    }
  }

  /** Serialising depends only on the values of the keys it visits. */
  lemma {:induction false} SerializeAgree(m: map<string, string>, m': map<string, string>, order: seq<string>)
    requires forall i :: 0 <= i < |order| ==> order[i] in m && order[i] in m' && m[order[i]] == m'[order[i]]
    ensures Serialize(m, order) == Serialize(m', order)
  {
    if order != [] {
      SerializeAgree(m, m', order[..|order| - 1]);
    }
  }

  /** Whatever the order, the encoding of `m` has the length of all its
      segments together. */
  lemma {:induction false} SerializeLength(m: map<string, string>, order: seq<string>)
    requires IsEnumeration(order, m.Keys)
    ensures |Serialize(m, order)| == EncodedLength(m)
    decreases |order|
  {
    if order == [] {
      assert m.Keys == {};
      assert m == map[];
    } else {
      var n := |order| - 1;
      var last, prefix := order[n], order[..n];
      var rest := m - {last};
      forall k | k in rest.Keys
        ensures k in prefix
      {
        var i :| 0 <= i < |order| && order[i] == k;
        assert prefix[i] == k;
      }
      assert IsEnumeration(prefix, rest.Keys);
      SerializeAgree(m, rest, prefix);
      SerializeLength(rest, prefix);
      EncodedLengthRemove(m, last);
    }
  }

  /** Serialising a concatenation of orders concatenates the texts. */
  lemma {:induction false} SerializeAppend(m: map<string, string>, a: seq<string>, b: seq<string>)
    requires forall i :: 0 <= i < |a| ==> a[i] in m
    requires forall i :: 0 <= i < |b| ==> b[i] in m
    ensures Serialize(m, a + b) == Serialize(m, a) + Serialize(m, b)
    decreases |b|
  {
    if b == [] {
      assert a + b == a;
    } else {
      var n := |b| - 1;
      var ab := a + b;
      assert ab[..|ab| - 1] == a + b[..n];
      assert ab[|ab| - 1] == b[n];
      SerializeAppend(m, a, b[..n]);
      calc {
        Serialize(m, ab);
        Serialize(m, a + b[..n]) + Segment(b[n], m[b[n]]);
        Serialize(m, a) + Serialize(m, b[..n]) + Segment(b[n], m[b[n]]);
        Serialize(m, a) + Serialize(m, b);
      }
    }
  }

  /** The entry visited i-th appears in the output as its own segment,
      with the value copied verbatim, between the segments of the entries
      visited before and after it. */
  lemma EntryAppears(m: map<string, string>, order: seq<string>, i: nat)
    requires forall j :: 0 <= j < |order| ==> order[j] in m
    requires i < |order|
    ensures Serialize(m, order)
         == Serialize(m, order[..i]) + Segment(order[i], m[order[i]]) + Serialize(m, order[i + 1..])
  {
    assert order == order[..i] + [order[i]] + order[i + 1..];
    SerializeAppend(m, order[..i] + [order[i]], order[i + 1..]);
    assert Serialize(m, order[..i] + [order[i]]) == Serialize(m, order[..i]) + Segment(order[i], m[order[i]]);
  }

  /** What every output of the encoder looks like: empty exactly when the
      filter is nil or holds no entry, otherwise ending in '&', and always
      as long as all segments together. */
  lemma EncodingShape(s: string, query: Query)
    requires IsEncoding(s, query)
    ensures s == "" <==> Keys(query) == {}
    ensures s != "" ==> s[|s| - 1] == '&'
    ensures |s| == if query.None? then 0 else EncodedLength(query.value)
  {
    if query.Some? {
      var order :| IsEnumeration(order, query.value.Keys) && s == Serialize(query.value, order);
      SerializeLength(query.value, order);
      if order != [] {
        assert order[0] in Keys(query);
      }
    }
  }
}
