/**
 * The wire-to-host field-name rewrite of the bridge (`snakeToCamel` in src/fff/ffi.ts):
 * in every object key, each `_` followed by a lower-case ASCII letter becomes that
 * letter in upper case; arrays are rewritten element-wise and scalars are left alone.
 */
module Casing {
  import opened Json

  predicate IsLower(c: char) {
    'a' <= c <= 'z'
  }

  function Upper(c: char): (u: char)
    requires IsLower(c)
    ensures 'A' <= u <= 'Z'
  {
    (c as int - 32) as char
  }

  /** The rewrite of `k` from index `i` on: a scan that turns each `_x` pair into `X`. */
  function CamelFrom(k: string, i: nat): string
    requires i <= |k|
    decreases |k| - i
  {
    if i == |k| then []
    else if i + 1 < |k| && k[i] == '_' && IsLower(k[i + 1]) then [Upper(k[i + 1])] + CamelFrom(k, i + 2)
    else [k[i]] + CamelFrom(k, i + 1)
  }

  /** `key.replace(/_([a-z])/g, (_, letter) => letter.toUpperCase())`: left to right, non-overlapping. */
  function CamelKey(k: string): string {
    CamelFrom(k, 0)
  }

  /** A `_` immediately followed by a lower-case letter stands at index `p` of `k`. */
  ghost predicate PairAt(k: string, p: int) {
    0 <= p < |k| - 1 && k[p] == '_' && IsLower(k[p + 1])
  }

  ghost predicate HasSnakePair(k: string) {
    exists p :: PairAt(k, p)
  }

  lemma {:induction false} PlainFrom(k: string, i: nat)
    requires i <= |k|
    requires forall p :: i <= p ==> !PairAt(k, p)
    ensures CamelFrom(k, i) == k[i..]
    decreases |k| - i
  {
    if i < |k| {
      assert !PairAt(k, i);
      PlainFrom(k, i + 1);
      assert k[i..] == [k[i]] + k[i + 1..];
    }
  }

  /** Keys without a `_x` pair are left unchanged. */
  lemma CamelKeyOfPlainKey(k: string)
    requires !HasSnakePair(k)
    ensures CamelKey(k) == k
  {
    PlainFrom(k, 0);
    assert k[0..] == k;
  }

  /** The first character of a rewrite is lower-case only if it is the original character. */
  lemma HeadFrom(k: string, i: nat)
    requires i < |k|
    ensures CamelFrom(k, i) != []
    ensures IsLower(CamelFrom(k, i)[0]) ==> CamelFrom(k, i)[0] == k[i]
  {
  }

  /** Prepending a character that does not start a `_x` pair adds no such pair. */
  lemma ConsNoPair(c: char, t: string)
    requires c != '_' || t == [] || !IsLower(t[0])
    requires !HasSnakePair(t)
    ensures !HasSnakePair([c] + t)
  {
    var s := [c] + t;
    forall p | 0 <= p < |s| - 1 ensures !PairAt(s, p) {
      if p > 0 {
        assert s[p] == t[p - 1] && s[p + 1] == t[p];
        assert !PairAt(t, p - 1);
      }
    }
  }

  lemma {:induction false} CamelFromIsCamel(k: string, i: nat)
    requires i <= |k|
    ensures !HasSnakePair(CamelFrom(k, i))
    decreases |k| - i
  {
    if i < |k| {
      if i + 1 < |k| && k[i] == '_' && IsLower(k[i + 1]) {
        CamelFromIsCamel(k, i + 2);
        ConsNoPair(Upper(k[i + 1]), CamelFrom(k, i + 2));
      } else {
        CamelFromIsCamel(k, i + 1);
        if i + 1 < |k| {
          HeadFrom(k, i + 1);
        }
        ConsNoPair(k[i], CamelFrom(k, i + 1));
      }
    }
  }

  /** The rewrite leaves no `_x` pair behind. */
  lemma CamelKeyIsCamel(k: string)
    ensures !HasSnakePair(CamelKey(k))
  {
    CamelFromIsCamel(k, 0);
  }

  /** Rewriting a key twice is the same as rewriting it once. */
  lemma CamelKeyIdempotent(k: string)
    ensures CamelKey(CamelKey(k)) == CamelKey(k)
  {
    CamelKeyIsCamel(k);
    CamelKeyOfPlainKey(CamelKey(k));
  }

  lemma {:induction false} LengthFrom(k: string, i: nat)
    requires i <= |k|
    ensures |CamelFrom(k, i)| <= |k| - i
    ensures |CamelFrom(k, i)| == |k| - i <==> forall p :: i <= p ==> !PairAt(k, p)
    decreases |k| - i
  {
    if i < |k| {
      if i + 1 < |k| && k[i] == '_' && IsLower(k[i + 1]) {
        LengthFrom(k, i + 2);
        assert PairAt(k, i);
      } else {
        LengthFrom(k, i + 1);
        assert !PairAt(k, i);
      }
    }
  }

  /** The rewrite never lengthens a key, and shortens exactly the keys that hold a `_x` pair. */
  lemma CamelKeyLength(k: string)
    ensures |CamelKey(k)| <= |k|
    ensures |CamelKey(k)| == |k| <==> !HasSnakePair(k)
  {
    LengthFrom(k, 0);
  }

  /** The rewrite from index `i` on is the rewrite of the suffix that starts there. */
  lemma {:induction false} CamelFromSuffix(k: string, i: nat)
    requires i <= |k|
    ensures CamelFrom(k, i) == CamelKey(k[i..])
    decreases |k| - i
  {
    if i < |k| {
      var t := k[i..];
      if i + 1 < |k| && k[i] == '_' && IsLower(k[i + 1]) {
        CamelFromSuffix(k, i + 2);
        CamelFromSuffix(t, 2);
        assert t[2..] == k[i + 2..];
      } else {
        CamelFromSuffix(k, i + 1);
        CamelFromSuffix(t, 1);
        assert t[1..] == k[i + 1..];
      }
    }
  }

  /** A prefix without `_` passes through the rewrite unchanged. */
  lemma {:induction false} CamelKeyPlainPrefix(a: string, b: string)
    requires '_' !in a
    ensures CamelKey(a + b) == a + CamelKey(b)
    decreases |a|
  {
    if a != [] {
      CamelFromSuffix(a + b, 1);
      assert (a + b)[1..] == a[1..] + b;
      CamelKeyPlainPrefix(a[1..], b);
      assert a == [a[0]] + a[1..];
    } else {
      assert a + b == b;
    }
  }

  /** `_x` at the front becomes `X`. */
  lemma CamelKeyPair(c: char, rest: string)
    requires IsLower(c)
    ensures CamelKey(['_', c] + rest) == [Upper(c)] + CamelKey(rest)
  {
    CamelFromSuffix(['_', c] + rest, 2);
    assert (['_', c] + rest)[2..] == rest;
  }

  /** A snake_case name: its words joined by `_`. */
  function SnakeJoin(ws: seq<string>): string
    decreases |ws|
  {
    if ws == [] then "" else if |ws| == 1 then ws[0] else ws[0] + "_" + SnakeJoin(ws[1..])
  }

  /** The words after the first, each with its first letter in upper case. */
  function CapitalizedJoin(ws: seq<string>): string
    requires forall i :: 0 <= i < |ws| ==> ws[i] != [] && IsLower(ws[i][0])
    decreases |ws|
  {
    if ws == [] then "" else [Upper(ws[0][0])] + ws[0][1..] + CapitalizedJoin(ws[1..])
  }

  /** A camelCase name: the first word, then the others capitalized. */
  function CamelJoin(ws: seq<string>): string
    requires ws != []
    requires forall i :: 0 < i < |ws| ==> ws[i] != [] && IsLower(ws[i][0])
  {
    ws[0] + CapitalizedJoin(ws[1..])
  }

  /** Words fit for a snake_case name: none holds `_`, and every word after the first starts with a lower-case letter. */
  ghost predicate SnakeWords(ws: seq<string>) {
    && ws != []
    && (forall i :: 0 <= i < |ws| ==> '_' !in ws[i])
    && (forall i :: 0 < i < |ws| ==> ws[i] != [] && IsLower(ws[i][0]))
  }

  lemma {:induction false} CamelKeyOfTail(ws: seq<string>)
    requires ws != [] && forall i :: 0 <= i < |ws| ==> '_' !in ws[i] && ws[i] != [] && IsLower(ws[i][0])
    ensures CamelKey("_" + SnakeJoin(ws)) == CapitalizedJoin(ws)
    decreases |ws|
  {
    var w := ws[0];
    var rest := if |ws| == 1 then "" else "_" + SnakeJoin(ws[1..]);
    assert "_" + SnakeJoin(ws) == ['_', w[0]] + (w[1..] + rest) by {
      assert w == [w[0]] + w[1..];
    }
    CamelKeyPair(w[0], w[1..] + rest);
    assert '_' !in w[1..] by {
      forall j | 0 <= j < |w[1..]| ensures w[1..][j] != '_' { assert w[1..][j] == w[j + 1]; }
    }
    CamelKeyPlainPrefix(w[1..], rest);
    if |ws| > 1 {
      CamelKeyOfTail(ws[1..]);
    }
  }

  /** The rewrite turns every snake_case name into the camelCase name of the same words. */
  lemma CamelKeyOfSnakeName(ws: seq<string>)
    requires SnakeWords(ws)
    ensures CamelKey(SnakeJoin(ws)) == CamelJoin(ws)
  {
    if |ws| == 1 {
      CamelKeyPlainPrefix(ws[0], "");
      assert ws[0] + "" == ws[0];
    } else {
      CamelKeyPlainPrefix(ws[0], "_" + SnakeJoin(ws[1..]));
      CamelKeyOfTail(ws[1..]);
      assert SnakeJoin(ws) == ws[0] + ("_" + SnakeJoin(ws[1..]));
    }
  }

  /** `snakeToCamel` of src/fff/ffi.ts: the object case fills a fresh object entry by entry. */
  function SnakeToCamel(j: Json): Json
  {
    match j
    case JArr(es) => JArr(seq(|es|, i requires 0 <= i < |es| => SnakeToCamel(es[i])))
    case JObj(fs) =>
      JObj(Assign([], seq(|fs|, i requires 0 <= i < |fs| => (CamelKey(fs[i].0), SnakeToCamel(fs[i].1)))))
    case _ => j
  }

  /** The entries of an object with each key rewritten and each value converted, before they are assigned. */
  function CamelEntries(fs: seq<(string, Json)>): (r: seq<(string, Json)>)
    ensures |r| == |fs|
    ensures SnakeToCamel(JObj(fs)) == JObj(Assign([], r))
  {
    seq(|fs|, i requires 0 <= i < |fs| => (CamelKey(fs[i].0), SnakeToCamel(fs[i].1)))
  }

  /** Scalars and `null` pass through unchanged; arrays keep their length and are converted element by element. */
  lemma SnakeToCamelShape(j: Json)
    ensures !j.JArr? && !j.JObj? ==> SnakeToCamel(j) == j
    ensures j.JArr? ==> SnakeToCamel(j).JArr? && |SnakeToCamel(j).elems| == |j.elems|
    ensures j.JArr? ==> forall i :: 0 <= i < |j.elems| ==> SnakeToCamel(j).elems[i] == SnakeToCamel(j.elems[i])
    ensures j.JObj? ==> SnakeToCamel(j).JObj?
  {
  }

  /**
   * A converted object has distinct keys, namely the rewritten keys of the original,
   * and each reads as the converted value of the last original entry whose key rewrites to it.
   */
  lemma SnakeToCamelObject(fs: seq<(string, Json)>)
    ensures SnakeToCamel(JObj(fs)).JObj?
    ensures DistinctKeys(SnakeToCamel(JObj(fs)).fields)
    ensures KeySet(SnakeToCamel(JObj(fs)).fields) == set i | 0 <= i < |fs| :: CamelKey(fs[i].0)
    ensures forall k :: Lookup(SnakeToCamel(JObj(fs)).fields, k) == LastWrite(CamelEntries(fs), k)
  {
    var ce := CamelEntries(fs);
    AssignKeys([], ce);
    forall k ensures Lookup(Assign([], ce), k) == LastWrite(ce, k) {
      LookupAssign([], ce, k);
    }
    assert KeySet(ce) == set i | 0 <= i < |fs| :: CamelKey(fs[i].0) by {
      forall x | x in KeySet(ce) ensures x in set i | 0 <= i < |fs| :: CamelKey(fs[i].0) {
        KeySetMember(ce, x);
        var i :| 0 <= i < |ce| && ce[i].0 == x;
      }
      forall x | x in set i | 0 <= i < |fs| :: CamelKey(fs[i].0) ensures x in KeySet(ce) {
        var i :| 0 <= i < |fs| && CamelKey(fs[i].0) == x;
        assert ce[i].0 == x;
        KeySetMember(ce, x);
      }
    }
  }

  /** When no two keys rewrite to the same key, the converted object is the converted entries, in their original order. */
  lemma SnakeToCamelNoCollision(fs: seq<(string, Json)>)
    requires forall i, j :: 0 <= i < j < |fs| ==> CamelKey(fs[i].0) != CamelKey(fs[j].0)
    ensures SnakeToCamel(JObj(fs)) == JObj(CamelEntries(fs))
  {
    var ce := CamelEntries(fs);
    assert forall i :: 0 <= i < |ce| ==> ce[i].0 == CamelKey(fs[i].0);
    assert DistinctKeys([] + ce) by {
      assert [] + ce == ce;
      DistinctKeysPairwise(ce);
    }
    AssignFresh([], ce);
  }

  /** Converting a second time changes nothing. */
  lemma SnakeToCamelIdempotent(j: Json)
    ensures SnakeToCamel(SnakeToCamel(j)) == SnakeToCamel(j)
  {
    match j
    case JArr(es) =>
      var once := SnakeToCamel(j);
      forall i | 0 <= i < |es| ensures SnakeToCamel(once.elems[i]) == once.elems[i] {
        SnakeToCamelIdempotent(es[i]);
      }
    case JObj(fs) =>
      var ce := CamelEntries(fs);
      var a := Assign([], ce);
      AssignKeys([], ce);
      AssignEntries([], ce);
      var ce2 := CamelEntries(a);
      forall m | 0 <= m < |a| ensures ce2[m] == a[m] {
        assert a[m] in ce;
        var i :| 0 <= i < |ce| && ce[i] == a[m];
        CamelKeyIdempotent(fs[i].0);
        SnakeToCamelIdempotent(fs[i].1);
      }
      assert ce2 == a;
      assert [] + a == a;
      AssignFresh([], a);
    case _ =>
  }
}
