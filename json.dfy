/**
 * JSON values as the native engine sends them and as JavaScript holds them after
 * `JSON.parse`, plus the object operations the bridge relies on: a JavaScript object
 * is an ordered list of entries whose keys are distinct, and assigning a property
 * replaces the value in place or appends a new entry.
 */
module Json {
  import opened Wrappers

  /** The closed set of value shapes `JSON.parse` can produce (numbers as integers). */
  datatype Json =
    | JNull
    | JBool(b: bool)
    | JNum(n: int)
    | JStr(s: string)
    | JArr(elems: seq<Json>)
    | JObj(fields: seq<(string, Json)>)

  /** A JavaScript value as this layer observes it: `undefined`, or a JSON value. */
  datatype JsValue = Undefined | Defined(json: Json)

  /** The keys of the entries. */
  function KeySet(fs: seq<(string, Json)>): set<string>
    decreases |fs|
  {
    if fs == [] then {} else {fs[0].0} + KeySet(fs[1..])
  }

  /** No key occurs twice among the entries. */
  ghost predicate DistinctKeys(fs: seq<(string, Json)>)
    decreases |fs|
  {
    fs == [] || (fs[0].0 !in KeySet(fs[1..]) && DistinctKeys(fs[1..]))
  }

  /** `obj[k]` on an object given by its entries: the first entry with key `k`. */
  function Lookup(fs: seq<(string, Json)>, k: string): Option<Json> {
    if fs == [] then None
    else if fs[0].0 == k then Some(fs[0].1)
    else Lookup(fs[1..], k)
  }

  /** `obj[k] = v`: replaces the entry for `k` where it stands, or appends one. */
  function Put(fs: seq<(string, Json)>, k: string, v: Json): seq<(string, Json)> {
    if fs == [] then [(k, v)]
    else if fs[0].0 == k then [(k, v)] + fs[1..]
    else [fs[0]] + Put(fs[1..], k, v)
  }

  /** Assigns the pairs `ps` one after the other onto the object `acc`. */
  function Assign(acc: seq<(string, Json)>, ps: seq<(string, Json)>): seq<(string, Json)>
    decreases |ps|
  {
    if ps == [] then acc else Assign(Put(acc, ps[0].0, ps[0].1), ps[1..])
  }

  /** The value the last pair with key `k` in `ps` carries, if any. */
  function LastWrite(ps: seq<(string, Json)>, k: string): Option<Json>
    decreases |ps|
  {
    if ps == [] then None
    else
      var later := LastWrite(ps[1..], k);
      if later.Some? then later else if ps[0].0 == k then Some(ps[0].1) else None
  }

  /** Reading back a property just assigned gives the assigned value; other keys are untouched. */
  lemma {:induction false} LookupPut(fs: seq<(string, Json)>, k: string, v: Json, k': string)
    ensures Lookup(Put(fs, k, v), k') == if k' == k then Some(v) else Lookup(fs, k')
  {
    if fs != [] && fs[0].0 != k {
      LookupPut(fs[1..], k, v, k');
    }
  }

  lemma {:induction false} KeySetMember(fs: seq<(string, Json)>, k: string)
    ensures k in KeySet(fs) <==> exists i :: 0 <= i < |fs| && fs[i].0 == k
    decreases |fs|
  {
    if fs != [] {
      KeySetMember(fs[1..], k);
      if exists i :: 0 <= i < |fs[1..]| && fs[1..][i].0 == k {
        var i :| 0 <= i < |fs[1..]| && fs[1..][i].0 == k;
        assert fs[i + 1].0 == k;
      }
      if exists i :: 0 <= i < |fs| && fs[i].0 == k {
        var i :| 0 <= i < |fs| && fs[i].0 == k;
        if i > 0 { assert fs[1..][i - 1].0 == k; }
      }
    }
  }

  lemma {:induction false} KeySetAppend(a: seq<(string, Json)>, b: seq<(string, Json)>)
    ensures KeySet(a + b) == KeySet(a) + KeySet(b)
    ensures DistinctKeys(a + b) <==> DistinctKeys(a) && DistinctKeys(b) && KeySet(a) !! KeySet(b)
    decreases |a|
  {
    if a == [] {
      assert a + b == b;
    } else {
      assert (a + b)[1..] == a[1..] + b;
      KeySetAppend(a[1..], b);
    }
  }

  /** Distinct keys, stated pairwise. */
  lemma {:induction false} DistinctKeysPairwise(fs: seq<(string, Json)>)
    ensures DistinctKeys(fs) <==> forall i, j :: 0 <= i < j < |fs| ==> fs[i].0 != fs[j].0
    decreases |fs|
  {
    if fs != [] {
      DistinctKeysPairwise(fs[1..]);
      KeySetMember(fs[1..], fs[0].0);
      if DistinctKeys(fs) {
        forall i, j | 0 <= i < j < |fs| ensures fs[i].0 != fs[j].0 {
          if i > 0 {
            assert fs[i] == fs[1..][i - 1] && fs[j] == fs[1..][j - 1];
          } else {
            assert fs[j] == fs[1..][j - 1];
          }
        }
      }
      if forall i, j :: 0 <= i < j < |fs| ==> fs[i].0 != fs[j].0 {
        forall i, j | 0 <= i < j < |fs[1..]| ensures fs[1..][i].0 != fs[1..][j].0 {
          assert fs[1..][i] == fs[i + 1] && fs[1..][j] == fs[j + 1];
        }
        forall i | 0 <= i < |fs[1..]| ensures fs[1..][i].0 != fs[0].0 {
          assert fs[1..][i] == fs[i + 1];
        }
      }
    }
  }

  /** Assignment adds exactly the assigned key. */
  lemma {:induction false} PutKeySet(fs: seq<(string, Json)>, k: string, v: Json)
    ensures KeySet(Put(fs, k, v)) == KeySet(fs) + {k}
    decreases |fs|
  {
    if fs != [] && fs[0].0 != k {
      PutKeySet(fs[1..], k, v);
    }
  }

  /** Assignment keeps the keys distinct. */
  lemma {:induction false} PutDistinct(fs: seq<(string, Json)>, k: string, v: Json)
    requires DistinctKeys(fs)
    ensures DistinctKeys(Put(fs, k, v))
    decreases |fs|
  {
    if fs != [] && fs[0].0 != k {
      PutDistinct(fs[1..], k, v);
      PutKeySet(fs[1..], k, v);
    }
  }

  /** Assigning a key the object does not have yet appends it. */
  lemma {:induction false} PutFresh(fs: seq<(string, Json)>, k: string, v: Json)
    requires k !in KeySet(fs)
    ensures Put(fs, k, v) == fs + [(k, v)]
    decreases |fs|
  {
    if fs != [] {
      PutFresh(fs[1..], k, v);
      assert fs == [fs[0]] + fs[1..];
    }
  }

  /** Every entry after an assignment was already there or is the assigned one. */
  lemma {:induction false} PutEntries(fs: seq<(string, Json)>, k: string, v: Json)
    ensures forall p :: p in Put(fs, k, v) ==> p in fs || p == (k, v)
    decreases |fs|
  {
    if fs != [] && fs[0].0 != k {
      PutEntries(fs[1..], k, v);
    }
  }

  /** Last write wins: after assigning `ps`, a key reads as its last assigned value. */
  lemma {:induction false} LookupAssign(acc: seq<(string, Json)>, ps: seq<(string, Json)>, k: string)
    ensures Lookup(Assign(acc, ps), k) ==
            if LastWrite(ps, k).Some? then LastWrite(ps, k) else Lookup(acc, k)
    decreases |ps|
  {
    if ps != [] {
      LookupAssign(Put(acc, ps[0].0, ps[0].1), ps[1..], k);
      LookupPut(acc, ps[0].0, ps[0].1, k);
    }
  }

  /** Assigning keeps keys distinct and adds exactly the assigned keys. */
  lemma {:induction false} AssignKeys(acc: seq<(string, Json)>, ps: seq<(string, Json)>)
    requires DistinctKeys(acc)
    ensures DistinctKeys(Assign(acc, ps))
    ensures KeySet(Assign(acc, ps)) == KeySet(acc) + KeySet(ps)
    decreases |ps|
  {
    if ps != [] {
      PutDistinct(acc, ps[0].0, ps[0].1);
      PutKeySet(acc, ps[0].0, ps[0].1);
      AssignKeys(Put(acc, ps[0].0, ps[0].1), ps[1..]);
    }
  }

  /** Every entry of the assigned object comes from the object or from the assigned pairs. */
  lemma {:induction false} AssignEntries(acc: seq<(string, Json)>, ps: seq<(string, Json)>)
    ensures forall p :: p in Assign(acc, ps) ==> p in acc || p in ps
    decreases |ps|
  {
    if ps != [] {
      PutEntries(acc, ps[0].0, ps[0].1);
      AssignEntries(Put(acc, ps[0].0, ps[0].1), ps[1..]);
      assert forall p :: p in ps[1..] ==> p in ps;
    }
  }

  /** With fresh, distinct keys, assigning simply appends the pairs in order. */
  lemma {:induction false} AssignFresh(acc: seq<(string, Json)>, ps: seq<(string, Json)>)
    requires DistinctKeys(acc + ps)
    ensures Assign(acc, ps) == acc + ps
    decreases |ps|
  {
    if ps != [] {
      KeySetAppend(acc, ps);
      PutFresh(acc, ps[0].0, ps[0].1);
      assert acc + ps == (acc + [ps[0]]) + ps[1..];
      AssignFresh(acc + [ps[0]], ps[1..]);
    }
  }

  /**
   * The entries of an object literal whose properties may be `undefined`, as
   * `JSON.stringify` writes them: a property whose value is `undefined` is left out.
   */
  function Present(es: seq<(string, Option<Json>)>): seq<(string, Json)>
    decreases |es|
  {
    if es == [] then []
    else if es[0].1.Some? then [(es[0].0, es[0].1.value)] + Present(es[1..])
    else Present(es[1..])
  }

  /** With distinct property names, each property reads back as written, or as missing when it was `undefined`. */
  lemma {:induction false} LookupPresent(es: seq<(string, Option<Json>)>, j: int)
    requires forall a, b :: 0 <= a < b < |es| ==> es[a].0 != es[b].0
    requires 0 <= j < |es|
    ensures Lookup(Present(es), es[j].0) == es[j].1
    decreases |es|
  {
    if j > 0 {
      assert es[1..][j - 1] == es[j];
      LookupPresent(es[1..], j - 1);
    } else if 1 < |es| {
      LookupAbsent(es[1..], es[0].0);
    } else {
      assert es[1..] == [];
    }
  }

  lemma {:induction false} LookupAbsent(es: seq<(string, Option<Json>)>, k: string)
    requires forall a :: 0 <= a < |es| ==> es[a].0 != k
    ensures Lookup(Present(es), k) == None
    decreases |es|
  {
    if es != [] {
      assert forall a :: 0 <= a < |es[1..]| ==> es[1..][a] == es[a + 1];
      LookupAbsent(es[1..], k);
    }
  }

  /** Reading property `name` of a value: `undefined` and `null` throw a TypeError; values that are not objects have no such property. */
  function Field(v: JsValue, name: string): (r: Outcome<JsValue>)
    ensures r.Threw? <==> v == Undefined || v == Defined(JNull)
    ensures r.Returned? && r.value != Undefined ==>
              v.Defined? && v.json.JObj? && Lookup(v.json.fields, name) == Some(r.value.json)
  {
    match v
    case Undefined => Threw("TypeError: Cannot read properties of undefined")
    case Defined(JNull) => Threw("TypeError: Cannot read properties of null")
    case Defined(JObj(fs)) => Returned(if Lookup(fs, name).Some? then Defined(Lookup(fs, name).value) else Undefined)
    case Defined(_) => Returned(Undefined)
  }

  /** JavaScript truthiness (`x || y` picks `y` when `x` is not truthy). */
  predicate Truthy(v: JsValue) {
    match v
    case Undefined => false
    case Defined(JNull) => false
    case Defined(JBool(b)) => b
    case Defined(JNum(n)) => n != 0
    case Defined(JStr(s)) => s != ""
    case Defined(_) => true
  }
}
