/**
 * The `value` bag of an entry: a java.util.LinkedHashMap<String, Object>
 * (and a Vert.x JsonObject, which is one too), modelled as an association
 * list in insertion order. `put` of a new key appends; `put` of a present
 * key replaces the value where it stands.
 */
module ValueMap {
  import opened Common

  type Bindings = seq<(string, Json)>

  predicate DistinctKeys(m: Bindings) {
    forall i, j :: 0 <= i < j < |m| ==> m[i].0 != m[j].0
  }

  function Keys(m: Bindings): (ks: seq<string>)
    ensures |ks| == |m| && forall i :: 0 <= i < |m| ==> ks[i] == m[i].0
  {
    if m == [] then [] else [m[0].0] + Keys(m[1..])
  }

  function Lookup(m: Bindings, k: string): (r: Option<Json>)
    ensures r.None? <==> k !in Keys(m)
    ensures r.Some? ==> exists i :: 0 <= i < |m| && m[i] == (k, r.value)
  {
    if m == [] then None
    else if m[0].0 == k then Some(m[0].1)
    else Lookup(m[1..], k)
  }

  /** LinkedHashMap.put(k, v). */
  function Put(m: Bindings, k: string, v: Json): (r: Bindings)
    ensures |r| == if k in Keys(m) then |m| else |m| + 1
  {
    if m == [] then [(k, v)]
    else if m[0].0 == k then [(k, v)] + m[1..]
    else [m[0]] + Put(m[1..], k, v)
  }

  /** After put(k, v), k maps to v and every other key keeps its binding. */
  lemma {:induction false} PutLookup(m: Bindings, k: string, v: Json, k': string)
    ensures Lookup(Put(m, k, v), k') == if k' == k then Some(v) else Lookup(m, k')
  {
    if m != [] && m[0].0 != k {
      PutLookup(m[1..], k, v, k');
    }
  }

  /** A present key keeps its position; a new key is appended at the end. */
  lemma {:induction false} PutOrder(m: Bindings, k: string, v: Json)
    ensures k in Keys(m) ==> Keys(Put(m, k, v)) == Keys(m)
    ensures k !in Keys(m) ==> Put(m, k, v) == m + [(k, v)]
  {
    if m != [] && m[0].0 != k {
      PutOrder(m[1..], k, v);
      assert Keys(m) == [m[0].0] + Keys(m[1..]);
      assert Keys(Put(m, k, v)) == [m[0].0] + Keys(Put(m[1..], k, v));
      assert m == [m[0]] + m[1..];
    }
  }

  /** put never introduces a duplicate key. */
  lemma PutDistinct(m: Bindings, k: string, v: Json)
    requires DistinctKeys(m)
    ensures DistinctKeys(Put(m, k, v))
  {
    PutOrder(m, k, v);
    var r := Put(m, k, v);
    if k in Keys(m) {
      assert Keys(r) == Keys(m);
      forall i, j | 0 <= i < j < |r| ensures r[i].0 != r[j].0 {
        assert r[i].0 == Keys(r)[i] == Keys(m)[i] == m[i].0;
        assert r[j].0 == Keys(r)[j] == Keys(m)[j] == m[j].0;
      }
    }
  }

  /** Binding a key twice keeps only the second value. */
  lemma {:induction false} PutPut(m: Bindings, k: string, v1: Json, v2: Json)
    ensures Put(Put(m, k, v1), k, v2) == Put(m, k, v2)
  {
    if m != [] && m[0].0 != k {
      PutPut(m[1..], k, v1, v2);
    }
  }
}
