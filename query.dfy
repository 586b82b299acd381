/**
 * The part of Go's `net/url` that the client relies on: `url.Values` (a map
 * from a key to a list of values), `Values.Set`, `Values.Encode` and the
 * query-component escaping `QueryEscape` with its inverse `QueryUnescape`.
 */
module UrlQuery {
  import opened Wrappers
  import opened Utf8
  import opened Order
  import Hex

  /** The contents of a `url.Values`. */
  type Query = map<string, seq<string>>

  /** Bytes that `QueryEscape` copies: the unreserved set of section 2.3 of RFC 3986. */
  predicate Unreserved(b: byte)
  {
    || 'A' as int <= b <= 'Z' as int
    || 'a' as int <= b <= 'z' as int
    || '0' as int <= b <= '9' as int
    || b == '-' as int || b == '_' as int || b == '.' as int || b == '~' as int
  }

  /** A character that is a single unreserved byte in UTF-8. */
  predicate UnreservedChar(ch: char) { ch as int < 0x80 && Unreserved(ch as int) }

  /** The characters an escaped component may contain: never a separator of the query string. */
  predicate EscapedChar(ch: char) { ch != '&' && ch != '=' && ch as int < 0x80 }

  /** The upper-case digits Go writes after `%`. */
  function UpperHexDigit(d: nat): (ch: char)
    requires d < 16
    ensures Hex.IsHexChar(ch) && Hex.HexValue(ch) == d && EscapedChar(ch)
    ensures '0' <= ch <= '9' || 'A' <= ch <= 'F'
  {
    if d < 10 then ('0' as int + d) as char else ('A' as int + d - 10) as char
  }

  /** One byte of a query component: itself if unreserved, `+` for a space, `%XY` otherwise. */
  function EscapeByte(b: byte): (s: string)
    ensures |s| > 0 && forall i :: 0 <= i < |s| ==> EscapedChar(s[i])
    ensures s == [b as char] <==> Unreserved(b)
    ensures b == ' ' as int ==> s == "+"
    ensures !Unreserved(b) && b != ' ' as int ==>
      && |s| == 3 && s[0] == '%'
      && ('0' <= s[1] <= '9' || 'A' <= s[1] <= 'F') && ('0' <= s[2] <= '9' || 'A' <= s[2] <= 'F')
      && Hex.IsHexChar(s[1]) && Hex.IsHexChar(s[2]) && Hex.HexValue(s[1]) * 16 + Hex.HexValue(s[2]) == b
  {
    if Unreserved(b) then [b as char]
    else if b == ' ' as int then "+"
    else ['%', UpperHexDigit(b / 16), UpperHexDigit(b % 16)]
  }

  function EscapeBytes(bs: seq<byte>): (s: string)
    ensures forall i :: 0 <= i < |s| ==> EscapedChar(s[i])
  {
    if bs == [] then "" else EscapeByte(bs[0]) + EscapeBytes(bs[1..])
  }

  /** `url.QueryEscape`: the escaping of the UTF-8 bytes of `s`. */
  function QueryEscape(s: string): (r: string)
    ensures forall i :: 0 <= i < |r| ==> EscapedChar(r[i])
  {
    EscapeBytes(Utf8.Encode(s))
  }

  /**
   * `url.QueryUnescape`, giving the bytes of the decoded string: `+` is a
   * space, `%XY` is the byte with hex value XY, any other character stands
   * for its own UTF-8 bytes; a `%` without two hex digits after it fails.
   */
  function QueryUnescape(s: string): (r: Option<seq<byte>>)
    ensures (forall i :: 0 <= i < |s| ==> s[i] != '%') ==> r.Some?
    ensures r.None? <==> (exists i :: 0 <= i < |s| && s[i] == '%' && (i + 2 >= |s| || !Hex.IsHexChar(s[i + 1]) || !Hex.IsHexChar(s[i + 2])))
  {
    if s == [] then Some([])
    else if s[0] == '%' then
      if |s| < 3 || !Hex.IsHexChar(s[1]) || !Hex.IsHexChar(s[2]) then None
      else match QueryUnescape(s[3..])
        case None => None
        case Some(rest) => Some([Hex.HexValue(s[1]) * 16 + Hex.HexValue(s[2])] + rest)
    else match QueryUnescape(s[1..])
      case None => None
      case Some(rest) => Some((if s[0] == '+' then [' ' as int] else EncodeRune(s[0])) + rest)
  }

  /** Unescaping reads one escaped byte back, whatever follows it. */
  lemma UnescapeByte(b: byte, t: string, rest: seq<byte>)
    requires QueryUnescape(t) == Some(rest)
    ensures QueryUnescape(EscapeByte(b) + t) == Some([b] + rest)
  {
    var s := EscapeByte(b) + t;
    if Unreserved(b) {
      assert s[0] == b as char && s[1..] == t;
    } else if b == ' ' as int {
      assert s[0] == '+' && s[1..] == t;
    } else {
      assert s[0] == '%' && s[3..] == t;
      assert Hex.HexValue(s[1]) * 16 + Hex.HexValue(s[2]) == b;
    }
  }

  lemma {:induction false} UnescapeEscapeBytes(bs: seq<byte>)
    ensures QueryUnescape(EscapeBytes(bs)) == Some(bs)
  {
    if bs != [] {
      UnescapeEscapeBytes(bs[1..]);
      UnescapeByte(bs[0], EscapeBytes(bs[1..]), bs[1..]);
      assert bs == [bs[0]] + bs[1..];
    }
  }

  /** Unescaping an escaped component gives back the component's bytes. */
  lemma QueryEscapeRoundTrip(s: string)
    ensures QueryUnescape(QueryEscape(s)) == Some(Utf8.Encode(s))
  {
    UnescapeEscapeBytes(Utf8.Encode(s));
  }

  /** A component made only of unreserved characters is written unchanged. */
  lemma {:induction false} QueryEscapeUnreserved(s: string)
    requires forall i :: 0 <= i < |s| ==> UnreservedChar(s[i])
    ensures QueryEscape(s) == s
  {
    if s != [] {
      var bs := Utf8.Encode(s);
      assert bs == [s[0] as int] + Utf8.Encode(s[1..]);
      assert bs[1..] == Utf8.Encode(s[1..]);
      QueryEscapeUnreserved(s[1..]);
      assert s == [s[0]] + s[1..];
    }
  }

  /** The items of a query string, with `&` between neighbours. */
  function Join(items: seq<string>): (r: string)
    ensures items != [] && items[|items| - 1] != [] ==> r != []
  {
    if items == [] then ""
    else if |items| == 1 then items[0]
    else Join(items[..|items| - 1]) + "&" + items[|items| - 1]
  }

  /** One `key=value` item. */
  function Pair(key: string, value: string): (r: string)
    ensures r != []
  {
    QueryEscape(key) + "=" + QueryEscape(value)
  }

  /** The items for one key, one per value, in the order of the values. */
  function PairsOf(key: string, values: seq<string>): (r: seq<string>)
    ensures |r| == |values|
    ensures forall i :: 0 <= i < |r| ==> r[i] == Pair(key, values[i])
  {
    if values == [] then [] else PairsOf(key, values[..|values| - 1]) + [Pair(key, values[|values| - 1])]
  }

  /** The items for the given keys of `m`, key after key. */
  function Items(m: Query, keys: seq<string>): (r: seq<string>)
    requires forall i :: 0 <= i < |keys| ==> keys[i] in m
    ensures forall i :: 0 <= i < |r| ==> r[i] != []
  {
    if keys == [] then []
    else Items(m, keys[..|keys| - 1]) + PairsOf(keys[|keys| - 1], m[keys[|keys| - 1]])
  }

  predicate IsLeast(k: string, keys: set<string>)
  {
    k in keys && forall x :: x in keys && x != k ==> Less(k, x)
  }

  predicate Increasing(s: seq<string>)
  {
    forall i, j :: 0 <= i < j < |s| ==> Less(s[i], s[j])
  }

  lemma {:induction false} LeastExists(keys: set<string>)
    requires keys != {}
    ensures exists k :: IsLeast(k, keys)
    decreases |keys|
  {
    var x :| x in keys;
    if keys == {x} {
      assert IsLeast(x, keys);
    } else {
      LeastExists(keys - {x});
      var y :| IsLeast(y, keys - {x});
      LessTotal(x, y);
      if Less(x, y) {
        forall z | z in keys && z != x
          ensures Less(x, z)
        {
          if z != y { LessTransitive(x, y, z); }
        }
        assert IsLeast(x, keys);
      } else {
        assert IsLeast(y, keys);
      }
    }
  }

  lemma LeastUnique(a: string, b: string, keys: set<string>)
    requires IsLeast(a, keys) && IsLeast(b, keys)
    ensures a == b
  {
    LessTotal(a, b);
  }

  /** The keys of a query in ascending order, as `Values.Encode` sorts them. */
  ghost function SortedKeys(keys: set<string>): (r: seq<string>)
    ensures |r| == |keys|
    decreases |keys|
  {
    if keys == {} then []
    else
      LeastExists(keys);
      var k :| IsLeast(k, keys);
      [k] + SortedKeys(keys - {k})
  }

  lemma IncreasingCons(k: string, t: seq<string>)
    requires Increasing(t)
    requires forall i :: 0 <= i < |t| ==> Less(k, t[i])
    ensures Increasing([k] + t)
  {
    var s := [k] + t;
    forall i, j | 0 <= i < j < |s|
      ensures Less(s[i], s[j])
    {
      assert s[j] == t[j - 1];
      if i > 0 {
        assert s[i] == t[i - 1];
      }
    }
  }

  /** The sorted keys are exactly the keys, each once, in strictly ascending order. */
  lemma {:induction false} SortedKeysSorted(keys: set<string>)
    ensures forall x :: x in SortedKeys(keys) <==> x in keys
    ensures Increasing(SortedKeys(keys))
    decreases |keys|
  {
    if keys != {} {
      var r := SortedKeys(keys);
      var k := r[0];
      var tail := SortedKeys(keys - {k});
      assert IsLeast(k, keys) && r == [k] + tail;
      SortedKeysSorted(keys - {k});
      assert forall x :: x in r <==> x == k || x in tail;
      forall i | 0 <= i < |tail|
        ensures Less(k, tail[i])
      {
        assert tail[i] in keys - {k};
      }
      IncreasingCons(k, tail);
    }
  }

  lemma SortedKeysUnfold(keys: set<string>, k: string)
    requires IsLeast(k, keys)
    ensures SortedKeys(keys) == [k] + SortedKeys(keys - {k})
  {
    var r := SortedKeys(keys);
    SortedKeysSorted(keys);
    assert r[0] in keys;
    assert IsLeast(r[0], keys);
    LeastUnique(r[0], k, keys);
  }

  /** The head of a strictly ascending listing of the keys is the least key, and the tail lists the others. */
  lemma IncreasingHeadTail(s: seq<string>, keys: set<string>)
    requires s != [] && Increasing(s)
    requires forall x :: x in s <==> x in keys
    ensures IsLeast(s[0], keys)
    ensures Increasing(s[1..])
    ensures forall x :: x in s[1..] <==> x in keys - {s[0]}
  {
    var h, t := s[0], s[1..];
    assert IsLeast(h, keys) by {
      forall x | x in keys && x != h
        ensures Less(h, x)
      {
        var j :| 0 <= j < |s| && s[j] == x;
        assert j != 0;
      }
    }
    assert h !in t by {
      forall j | 0 <= j < |t|
        ensures t[j] != h
      {
        assert Less(s[0], s[j + 1]);
      }
    }
    assert Increasing(t) by {
      forall i, j | 0 <= i < j < |t|
        ensures Less(t[i], t[j])
      {
        assert t[i] == s[i + 1] && t[j] == s[j + 1];
      }
    }
    assert s == [h] + t;
  }

  /** A strictly ascending listing of exactly the keys is the sorted one. */
  lemma {:induction false} SortedKeysUnique(s: seq<string>, keys: set<string>)
    requires Increasing(s)
    requires forall x :: x in s <==> x in keys
    ensures SortedKeys(keys) == s
  {
    if s != [] {
      IncreasingHeadTail(s, keys);
      SortedKeysUnfold(keys, s[0]);
      SortedKeysUnique(s[1..], keys - {s[0]});
      assert s == [s[0]] + s[1..];
    }
  }

  lemma JoinSnoc(items: seq<string>, x: string)
    ensures Join(items + [x]) == if items == [] then x else Join(items) + "&" + x
  {
    assert (items + [x])[..|items|] == items;
  }

  lemma PairsOfSnoc(key: string, values: seq<string>, j: nat)
    requires j < |values|
    ensures PairsOf(key, values[..j + 1]) == PairsOf(key, values[..j]) + [Pair(key, values[j])]
  {
    assert values[..j + 1][..j] == values[..j];
  }

  lemma ItemsSnoc(m: Query, keys: seq<string>, k: string)
    requires forall i :: 0 <= i < |keys| ==> keys[i] in m
    requires k in m
    ensures Items(m, keys + [k]) == Items(m, keys) + PairsOf(k, m[k])
  {
    assert (keys + [k])[..|keys|] == keys;
  }

  /** Sequences ordered between neighbours are ordered throughout. */
  lemma {:induction false} IncreasingFromNeighbours(s: seq<string>)
    requires forall i :: 0 <= i < |s| - 1 ==> Less(s[i], s[i + 1])
    ensures Increasing(s)
  {
    if |s| > 1 {
      IncreasingFromNeighbours(s[1..]);
      forall j | 1 <= j < |s|
        ensures Less(s[0], s[j])
      {
        if j > 1 {
          assert Less(s[1..][0], s[1..][j - 1]);
          LessTransitive(s[0], s[1], s[j]);
        }
      }
      forall i, j | 0 <= i < j < |s|
        ensures Less(s[i], s[j])
      {
        if i > 0 {
          assert Less(s[1..][i - 1], s[1..][j - 1]);
        }
      }
    }
  }

  /** The items of keys `ks` paired with single values `vs`. */
  function PairsAt(ks: seq<string>, vs: seq<string>): (r: seq<string>)
    requires |ks| == |vs|
    ensures |r| == |ks| && forall i :: 0 <= i < |r| ==> r[i] == Pair(ks[i], vs[i])
  {
    if ks == [] then [] else PairsAt(ks[..|ks| - 1], vs[..|vs| - 1]) + [Pair(ks[|ks| - 1], vs[|vs| - 1])]
  }

  lemma PairsAtFour(ks: seq<string>, vs: seq<string>)
    requires |ks| == 4 && |vs| == 4
    ensures PairsAt(ks, vs) == [Pair(ks[0], vs[0]), Pair(ks[1], vs[1]), Pair(ks[2], vs[2]), Pair(ks[3], vs[3])]
  {
    var r := PairsAt(ks, vs);
    assert r == [r[0], r[1], r[2], r[3]];
  }

  lemma PairsAtFive(ks: seq<string>, vs: seq<string>)
    requires |ks| == 5 && |vs| == 5
    ensures PairsAt(ks, vs)
         == [Pair(ks[0], vs[0]), Pair(ks[1], vs[1]), Pair(ks[2], vs[2]), Pair(ks[3], vs[3]), Pair(ks[4], vs[4])]
  {
    var r := PairsAt(ks, vs);
    assert r == [r[0], r[1], r[2], r[3], r[4]];
  }

  lemma {:induction false} ItemsSingleValued(m: Query, ks: seq<string>, vs: seq<string>)
    requires |ks| == |vs|
    requires forall i :: 0 <= i < |ks| ==> ks[i] in m && m[ks[i]] == [vs[i]]
    ensures Items(m, ks) == PairsAt(ks, vs)
  {
    if ks != [] {
      var n := |ks| - 1;
      ItemsSingleValued(m, ks[..n], vs[..n]);
      assert PairsOf(ks[n], [vs[n]]) == [Pair(ks[n], vs[n])];
    }
  }

  /** Items are non-empty strings, so they join to the empty string only when there are none. */
  lemma JoinEmpty(items: seq<string>)
    requires forall i :: 0 <= i < |items| ==> items[i] != []
    ensures Join(items) == "" <==> items == []
  {
  }

  /** A list of keys has no items exactly when none of its keys holds a value. */
  lemma {:induction false} ItemsEmpty(m: Query, keys: seq<string>)
    requires forall i :: 0 <= i < |keys| ==> keys[i] in m
    ensures Items(m, keys) == [] <==> forall i :: 0 <= i < |keys| ==> m[keys[i]] == []
  {
    if keys != [] {
      var n := |keys| - 1;
      ItemsEmpty(m, keys[..n]);
      assert forall i :: 0 <= i < n ==> keys[..n][i] == keys[i];
    }
  }

  /**
   * What `Values.Encode` returns for a query with contents `m`; it is empty
   * exactly when no key holds a value.
   */
  ghost function EncodeQuery(m: Query): (r: string)
    ensures r == "" <==> forall k :: k in m ==> m[k] == []
  {
    SortedKeysSorted(m.Keys);
    var keys := SortedKeys(m.Keys);
    ItemsEmpty(m, keys);
    JoinEmpty(Items(m, keys));
    assert (forall k :: k in m ==> m[k] == []) <==> forall i :: 0 <= i < |keys| ==> m[keys[i]] == [] by {
      forall k | k in m
        ensures exists i :: 0 <= i < |keys| && keys[i] == k
      {
        assert k in keys;
      }
    }
    Join(Items(m, keys))
  }

  /** One step of `Values.Encode`'s outer loop: the least remaining key is the next sorted one. */
  lemma SortedStep(sorted: seq<string>, done: seq<string>, rest: set<string>, k: string)
    requires done + SortedKeys(rest) == sorted
    requires IsLeast(k, rest)
    ensures (done + [k]) + SortedKeys(rest - {k}) == sorted
  {
    SortedKeysUnfold(rest, k);
    ghost var tail := SortedKeys(rest - {k});
    assert done + ([k] + tail) == (done + [k]) + tail;
  }

  lemma EncodeQueryDone(m: Query, done: seq<string>)
    requires done + SortedKeys({}) == SortedKeys(m.Keys)
    requires forall i :: 0 <= i < |done| ==> done[i] in m
    ensures EncodeQuery(m) == Join(Items(m, done))
  {
    assert done + SortedKeys({}) == done;
  }

  /** One round of `Values.Encode`: the least remaining key moves from `rest` to `done`. */
  lemma EncodeStep(m: Query, sorted: seq<string>, done: seq<string>, rest: set<string>, k: string)
    requires rest <= m.Keys
    requires forall i :: 0 <= i < |done| ==> done[i] in m
    requires done + SortedKeys(rest) == sorted
    requires IsLeast(k, rest)
    ensures forall i :: 0 <= i < |done + [k]| ==> (done + [k])[i] in m
    ensures (done + [k]) + SortedKeys(rest - {k}) == sorted
    ensures Items(m, done + [k]) == Items(m, done) + PairsOf(k, m[k])
  {
    SortedStep(sorted, done, rest, k);
    ItemsSnoc(m, done, k);
  }

  /** The inner loop of `Values.Encode`: appends one key's items to the encoding of `before`. */
  method AppendPairs(prefix: string, ghost before: seq<string>, key: string, values: seq<string>) returns (s: string)
    requires prefix == Join(before)
    requires forall i :: 0 <= i < |before| ==> before[i] != []
    ensures s == Join(before + PairsOf(key, values))
  {
    s := prefix;
    var escapedKey := QueryEscape(key);
    var j := 0;
    assert before + PairsOf(key, values[..0]) == before;
    while j < |values|
      invariant 0 <= j <= |values|
      invariant s == Join(before + PairsOf(key, values[..j]))
    {
      ghost var items := before + PairsOf(key, values[..j]);
      var item := escapedKey + "=" + QueryEscape(values[j]);
      assert item == Pair(key, values[j]);
      PairsOfSnoc(key, values, j);
      assert before + PairsOf(key, values[..j + 1]) == items + [item];
      JoinSnoc(items, item);
      assert items != [] ==> items[|items| - 1] != [];
      if |s| > 0 {
        s := s + "&" + item;
      } else {
        s := item;
      }
      j := j + 1;
    }
    assert values[..j] == values;
  }

  /**
   * A query whose keys, in ascending order, are `ks`, each holding the single
   * value at the same position of `vs`, encodes as those `key=value` items
   * in that order.
   */
  lemma EncodeSingleValued(m: Query, ks: seq<string>, vs: seq<string>)
    requires |ks| == |vs| && Increasing(ks)
    requires forall x :: x in ks <==> x in m
    requires forall i :: 0 <= i < |ks| ==> m[ks[i]] == [vs[i]]
    ensures EncodeQuery(m) == Join(PairsAt(ks, vs))
  {
    SortedKeysUnique(ks, m.Keys);
    ItemsSingleValued(m, ks, vs);
  }

  /** `EncodeSingleValued` for four keys that escaping leaves unchanged. */
  lemma EncodeFour(m: Query, k0: string, k1: string, k2: string, k3: string,
                   v0: string, v1: string, v2: string, v3: string)
    requires Increasing([k0, k1, k2, k3])
    requires m.Keys == {k0, k1, k2, k3}
    requires m[k0] == [v0] && m[k1] == [v1] && m[k2] == [v2] && m[k3] == [v3]
    requires QueryEscape(k0) == k0 && QueryEscape(k1) == k1 && QueryEscape(k2) == k2 && QueryEscape(k3) == k3
    ensures EncodeQuery(m)
         == Join([k0 + "=" + QueryEscape(v0), k1 + "=" + QueryEscape(v1), k2 + "=" + QueryEscape(v2),
                  k3 + "=" + QueryEscape(v3)])
  {
    var ks, vs := [k0, k1, k2, k3], [v0, v1, v2, v3];
    EncodeSingleValued(m, ks, vs);
    PairsAtFour(ks, vs);
  }

  /** `EncodeSingleValued` for five keys that escaping leaves unchanged. */
  lemma EncodeFive(m: Query, k0: string, k1: string, k2: string, k3: string, k4: string,
                   v0: string, v1: string, v2: string, v3: string, v4: string)
    requires Increasing([k0, k1, k2, k3, k4])
    requires m.Keys == {k0, k1, k2, k3, k4}
    requires m[k0] == [v0] && m[k1] == [v1] && m[k2] == [v2] && m[k3] == [v3] && m[k4] == [v4]
    requires QueryEscape(k0) == k0 && QueryEscape(k1) == k1 && QueryEscape(k2) == k2 && QueryEscape(k3) == k3
    requires QueryEscape(k4) == k4
    ensures EncodeQuery(m)
         == Join([k0 + "=" + QueryEscape(v0), k1 + "=" + QueryEscape(v1), k2 + "=" + QueryEscape(v2),
                  k3 + "=" + QueryEscape(v3), k4 + "=" + QueryEscape(v4)])
  {
    var ks, vs := [k0, k1, k2, k3, k4], [v0, v1, v2, v3, v4];
    EncodeSingleValued(m, ks, vs);
    PairsAtFive(ks, vs);
  }

  /** A `url.Values`: it is a reference in Go, so the callee's `Set` calls are seen by the caller. */
  class Values {
    var entries: Query

    /** `url.Values{}`. */
    constructor ()
      ensures entries == map[]
    {
      entries := map[];
    }

    /** `Set` replaces whatever `key` held with the single value `value`. */
    method Set(key: string, value: string)
      modifies this
      ensures entries == old(entries)[key := [value]]
    {
      entries := entries[key := [value]];
    }

    /**
     * `Encode`: every value of every key as `key=value`, keys in ascending
     * order and the values of a key in their stored order, joined by `&`.
     */
    method Encode() returns (s: string)
      ensures s == EncodeQuery(entries)
    {
      var rest := entries.Keys;
      ghost var done: seq<string> := [];
      ghost var sorted := SortedKeys(entries.Keys);
      s := "";
      while rest != {}
        invariant rest <= entries.Keys
        invariant forall i :: 0 <= i < |done| ==> done[i] in entries
        invariant done + SortedKeys(rest) == sorted
        invariant s == Join(Items(entries, done))
        decreases |rest|
      {
        LeastExists(rest);
        var k :| k in rest && IsLeast(k, rest);
        s := AppendPairs(s, Items(entries, done), k, entries[k]);
        EncodeStep(entries, sorted, done, rest, k);
        done := done + [k];
        rest := rest - {k};
      }
      EncodeQueryDone(entries, done);
    }
  }
}
