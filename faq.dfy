/** The FAQ content the widget loads once: a welcome message and one topic per key.
    A JavaScript plain object with string keys is modelled as `Dict`: the values by key
    together with the order in which `Object.keys` enumerates them (insertion order). */
module Faq {

  datatype Option<+T> = None | Some(value: T)

  /** No element occurs twice. */
  predicate Distinct<T(==)>(s: seq<T>) {
    forall i, j :: 0 <= i < j < |s| ==> s[i] != s[j]
  }

  /** A string-keyed object: `entries` holds the properties, `order` the key order. */
  datatype Dict<V> = Dict(order: seq<string>, entries: map<string, V>) {

    /** Every property is listed exactly once in the key order. */
    ghost predicate Valid() {
      Distinct(order) && forall k :: k in entries <==> k in order
    }

    /** `obj[k] = v`: a new key goes to the end of the order, an existing key keeps its place. */
    function Put(k: string, v: V): (d: Dict<V>)
      ensures Valid() ==> d.Valid()
      ensures k in d.entries && d.entries[k] == v
      ensures forall k' :: k' != k ==> (k' in d.entries <==> k' in entries)
      ensures forall k' :: k' != k && k' in entries ==> d.entries[k'] == entries[k']
      ensures Valid() && k in entries ==> d.order == order
      ensures Valid() && k !in entries ==> d.order == order + [k]
    {
      Dict(if k in entries then order else order + [k], entries[k := v])
    }
  }

  /** The object literal `{}`. */
  function EmptyDict<V>(): (d: Dict<V>)
    ensures d.Valid() && d.order == [] && d.entries == map[]
  {
    Dict([], map[])
  }

  /** One FAQ topic as the query endpoint returns it: a message and optional sub-topics
      (sub-key to sub-message). */
  datatype Topic = Topic(message: string, sub: Option<Dict<string>>)

  /** What JSON decoding guarantees of a topic: its sub-topic object is well formed. */
  ghost predicate Decoded(t: Topic) {
    t.sub.Some? ==> t.sub.value.Valid()
  }

  /** `FAQData`: the welcome message and the topics by key. */
  datatype FAQData = FAQData(welcome: string, queries: Dict<Topic>)

  ghost predicate WellFormed(d: FAQData) {
    d.queries.Valid() && forall k :: k in d.queries.entries ==> Decoded(d.queries.entries[k])
  }

  /** The keys of `s` in order of first occurrence: the key order of an object built by
      assigning the keys of `s` one after another. */
  function Dedup(s: seq<string>): (r: seq<string>)
    ensures Distinct(r)
    ensures forall x :: x in r <==> x in s
  {
    if s == [] then []
    else
      var d := Dedup(s[..|s| - 1]);
      if s[|s| - 1] in d then d else d + [s[|s| - 1]]
  }

  /** A key list without repetitions is its own key order. */
  lemma {:induction false} DedupOfDistinct(s: seq<string>)
    requires Distinct(s)
    ensures Dedup(s) == s
  {
    if s != [] {
      var init := s[..|s| - 1];
      assert Distinct(init);
      DedupOfDistinct(init);
      assert s[|s| - 1] !in init;
      assert init + [s[|s| - 1]] == s;
    }
  }
}
