/**
 * PHP values as the view component stores them, helper objects, and the
 * ordered associative arrays that callers pass in.
 */
module Values {

  /**
   * A value stored in the options or data of a manager or adapter. Objects
   * (helpers, template loaders, closures) are kept by identity.
   */
  datatype Value =
    | Null
    | Bool(b: bool)
    | Int(i: int)
    | Str(s: string)
    | Array(entries: map<string, Value>)
    | Object(ref: object)

  /** A view helper: an object that reports its own name. */
  class ViewHelper {
    const name: string

    constructor (name: string)
      ensures this.name == name
    {
      this.name := name;
    }
  }

  /** A PHP array given by a caller, as its key/value pairs in iteration order. */
  type Entries = seq<(string, Value)>

  /** The keys of an ordered array. */
  function KeysOf(es: Entries): set<string>
    decreases |es|
  {
    if es == [] then {} else KeysOf(es[..|es| - 1]) + {es[|es| - 1].0}
  }

  /** `foreach ($es as $key => $value) { $m[$key] = $value; }` */
  function Upsert(m: map<string, Value>, es: Entries): (r: map<string, Value>)
    ensures r.Keys == m.Keys + KeysOf(es)
    decreases |es|
  {
    if es == [] then m else Upsert(m, es[..|es| - 1])[es[|es| - 1].0 := es[|es| - 1].1]
  }

  /**
   * After storing the pairs, a key of the array holds the value of its last
   * pair, and every other key keeps its old value.
   */
  lemma {:induction false} UpsertLookup(m: map<string, Value>, es: Entries, k: string)
    ensures k in Upsert(m, es) <==> k in m || k in KeysOf(es)
    ensures k !in KeysOf(es) && k in m ==> Upsert(m, es)[k] == m[k]
    ensures forall i :: 0 <= i < |es| && es[i].0 == k && (forall j :: i < j < |es| ==> es[j].0 != k) ==>
              k in Upsert(m, es) && Upsert(m, es)[k] == es[i].1
    decreases |es|
  {
    if es != [] {
      var init := es[..|es| - 1];
      UpsertLookup(m, init, k);
      forall i | 0 <= i < |es| - 1 ensures init[i] == es[i] { }
    }
  }

  /** Storing the pairs onto `m` is `m` overridden by the array's own map. */
  lemma {:induction false} UpsertIsOverride(m: map<string, Value>, es: Entries)
    ensures Upsert(m, es) == m + Upsert(map[], es)
    decreases |es|
  {
    if es != [] {
      var init := es[..|es| - 1];
      UpsertIsOverride(m, init);
      assert (m + Upsert(map[], init))[es[|es| - 1].0 := es[|es| - 1].1]
          == m + Upsert(map[], init)[es[|es| - 1].0 := es[|es| - 1].1];
    }
  }
}
