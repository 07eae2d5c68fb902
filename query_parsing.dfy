/** A split-only reader of query strings, which does no percent-decoding:
    it cuts the text at each '&' into entries and each entry at its first
    '=' into key and value. It is the inverse the encoder is checked
    against. It is not the Onionoo service's reader: URL parsing and
    query decoding also treat '#', '%' and '+' specially. */
module QueryParsing {
  import opened Wrappers
  import opened Onionoo
  import opened QueryEncoding

  /** The position of the first `c` in `s`, or `|s|` when there is none. */
  function IndexOf(s: string, c: char): (i: nat)
    ensures i <= |s|
    ensures i < |s| ==> s[i] == c
    ensures forall j :: 0 <= j < i ==> s[j] != c
  {
    if s == [] then 0
    else if s[0] == c then 0
    else 1 + IndexOf(s[1..], c)
  }

  /** Splits one entry at its first '='; an entry without '=' is a key with
      an empty value. */
  function SplitEntry(piece: string): (string, string)
  {
    var e := IndexOf(piece, '=');
    (piece[..e], if e < |piece| then piece[e + 1..] else "")
  }

  /** The entries of a query string, in the order they are written; every
      '&' ends an entry and an empty remainder ends the string. */
  function ParsePairs(s: string): seq<(string, string)>
    decreases |s|
  {
    if s == "" then []
    else
      var i := IndexOf(s, '&');
      [SplitEntry(s[..i])] + ParsePairs(if i < |s| then s[i + 1..] else "")
  }

  /** Collects entries into a map; the first entry for a key wins. */
  function ToMap(pairs: seq<(string, string)>): map<string, string>
  {
    if pairs == [] then map[]
    else ToMap(pairs[1..])[pairs[0].0 := pairs[0].1]
  }

  /** The filter a reader recovers from a query string. */
  function ParseQuery(s: string): map<string, string>
  {
    ToMap(ParsePairs(s))
  }

  /** The entries of `m` listed in the order `order`. */
  function Pairs(m: map<string, string>, order: seq<string>): seq<(string, string)>
    requires forall i :: 0 <= i < |order| ==> order[i] in m
  {
    if order == [] then []
    else [(order[0], m[order[0]])] + Pairs(m, order[1..])
  }

  /** Entries whose text survives the encoder unescaped: keys contain
      neither '&' nor '=', values contain no '&'. Every name of the
      parameter allow-list is such a key. */
  predicate PlainEntries(m: map<string, string>)
  {
    forall k :: k in m ==> '&' !in k && '=' !in k && '&' !in m[k]
  }

  /** A plain entry followed by anything is read back as that entry
      followed by whatever the rest reads as. The reader ends the entry at
      the '&' after `val` and splits it at the '=' after `key`, since
      neither holds an earlier one. */
  lemma ParseSegment(key: string, val: string, rest: string)
    requires '&' !in key && '=' !in key && '&' !in val
    ensures ParsePairs(Segment(key, val) + rest) == [(key, val)] + ParsePairs(rest)
  {
    var s := Segment(key, val) + rest;
    var p := |key| + |val| + 1;
    assert s[p] == '&';
    assert forall j :: 0 <= j < p ==> s[j] != '&' by {
      forall j | 0 <= j < p
        ensures s[j] != '&'
      {
        if j < |key| {
          assert s[j] == key[j];
        } else if |key| < j {
          assert s[j] == val[j - |key| - 1];
        }
      }
    }
    assert IndexOf(s, '&') == p;
    var piece := s[..p];
    assert piece == key + "=" + val;
    assert piece[|key|] == '=';
    assert forall j :: 0 <= j < |key| ==> piece[j] != '=' by {
      forall j | 0 <= j < |key|
        ensures piece[j] != '='
      {
        assert piece[j] == key[j];
      }
    }
    assert IndexOf(piece, '=') == |key|;
    assert piece[..|key|] == key;
    assert piece[|key| + 1..] == val;
    assert s[p + 1..] == rest;
  }

  /** Reading back a serialised filter yields its entries in the order
      they were written. */
  lemma {:induction false} ParseSerialize(m: map<string, string>, order: seq<string>)
    requires forall i :: 0 <= i < |order| ==> order[i] in m
    requires PlainEntries(m)
    ensures ParsePairs(Serialize(m, order)) == Pairs(m, order)
    decreases |order|
  {
    if order != [] {
      var rest := Serialize(m, order[1..]);
      EntryAppears(m, order, 0);
      assert order[..0] == [];
      assert Serialize(m, order) == Segment(order[0], m[order[0]]) + rest;
      ParseSegment(order[0], m[order[0]], rest);
      ParseSerialize(m, order[1..]);
    }
  }

  /** Collecting the entries of `m` listed in `order` gives back `m`
      restricted to the listed keys. */
  lemma {:induction false} ToMapPairs(m: map<string, string>, order: seq<string>)
    requires forall i :: 0 <= i < |order| ==> order[i] in m
    ensures forall k :: k in ToMap(Pairs(m, order)) <==> k in order
    ensures forall k :: k in ToMap(Pairs(m, order)) ==> ToMap(Pairs(m, order))[k] == m[k]
    decreases |order|
  {
    if order != [] {
      ToMapPairs(m, order[1..]);
      var r := ToMap(Pairs(m, order));
      assert Pairs(m, order)[1..] == Pairs(m, order[1..]);
      forall k
        ensures k in r <==> k in order
      {
        assert k in order <==> k == order[0] || k in order[1..];
      }
    }
  }

  /** The round trip: for a filter with plain entries, whatever order the
      encoder wrote the entries in, a reader recovers exactly the filter. */
  lemma EncodingRoundTrip(s: string, m: map<string, string>)
    requires IsEncoding(s, Some(m))
    requires PlainEntries(m)
    ensures ParseQuery(s) == m
  {
    var order :| IsEnumeration(order, m.Keys) && s == Serialize(m, order);
    ParseSerialize(m, order);
    ToMapPairs(m, order);
  }

  /** Without percent-encoding the round trip fails as soon as a value
      contains '&': the reader cuts the value at its first '&', so the
      entry it reads back differs from the one that was written. */
  lemma ValueWithAmpersandIsCut(key: string, val: string, rest: string)
    requires '&' !in key && '=' !in key && '&' in val
    ensures ParsePairs(Segment(key, val) + rest)[0] == (key, val[..IndexOf(val, '&')])
    ensures val[..IndexOf(val, '&')] != val
  {
    var c := IndexOf(val, '&');
    var after := val[c + 1..] + "&" + rest;
    assert val == val[..c] + "&" + val[c + 1..];
    assert Segment(key, val) + rest == Segment(key, val[..c]) + after;
    ParseSegment(key, val[..c], after);
  }
}
