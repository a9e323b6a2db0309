/** Loading the FAQ content (`fetchWelcome`): one welcome request, then one topic request
    per key, in order; the data is published only when every request succeeded.

    The network is a parameter. `welcome` is the outcome of the welcome request (`None`
    when fetching or decoding it fails). `replies[i]` is the outcome of the i-th topic
    request; a request for which `replies` holds no entry never settles, so, like a
    failed one, it leaves the data unpublished. */
module Content {
  import opened Faq

  /** The decoded body of the welcome request: a message and the ordered topic keys. */
  datatype WelcomeReply = WelcomeReply(message: string, queries: seq<string>)

  /** The first `n` topic requests all succeeded. */
  predicate AllAnswered(n: nat, replies: seq<Option<Topic>>) {
    n <= |replies| && forall i :: 0 <= i < n ==> replies[i].Some?
  }

  /** Request `i` is the last one made for the key `keys[i]`. */
  predicate LastRequest(keys: seq<string>, i: int) {
    0 <= i < |keys| && forall j :: i < j < |keys| ==> keys[j] != keys[i]
  }

  /** `queries` is the object built from the replies to the requests for `keys`: its key
      order is that of first occurrence, and each key holds the reply to its last request. */
  ghost predicate Assembled(keys: seq<string>, replies: seq<Option<Topic>>, queries: Dict<Topic>) {
    && queries.Valid()
    && queries.order == Dedup(keys)
    && HoldsLastReplies(keys, replies, queries.entries)
  }

  /** Each requested key holds the reply to its last request. */
  ghost predicate HoldsLastReplies(keys: seq<string>, replies: seq<Option<Topic>>, entries: map<string, Topic>) {
    forall i :: LastRequest(keys, i) ==>
      i < |replies| && replies[i].Some? && keys[i] in entries && entries[keys[i]] == replies[i].value
  }

  /** The `for (const key of welcomeJson.queries)` loop: requests each key in turn and stores
      the reply under it; the first failed request abandons the whole object. */
  method AssembleQueries(keys: seq<string>, replies: seq<Option<Topic>>)
    returns (queries: Option<Dict<Topic>>)
    ensures queries.Some? <==> AllAnswered(|keys|, replies)
    ensures queries.Some? ==> Assembled(keys, replies, queries.value)
  {
    var queriesData: Dict<Topic> := EmptyDict();
    var i := 0;
    while i < |keys|
      invariant 0 <= i <= |keys|
      invariant AllAnswered(i, replies)
      invariant Assembled(keys[..i], replies, queriesData)
    {
      if i >= |replies| || replies[i].None? {
        assert !AllAnswered(|keys|, replies) by {
          if i < |replies| { assert replies[i].None?; }
        }
        return None;
      }
      ghost var done := keys[..i];
      assert keys[..i + 1] == done + [keys[i]];
      AssembledSnoc(done, keys[i], replies, queriesData);
      queriesData := queriesData.Put(keys[i], replies[i].value);
      i := i + 1;
    }
    assert keys[..i] == keys;
    queries := Some(queriesData);
  }

  /** One more successful request extends the object built so far. */
  lemma AssembledSnoc(keys: seq<string>, k: string, replies: seq<Option<Topic>>, queries: Dict<Topic>)
    requires |keys| < |replies| && replies[|keys|].Some?
    requires Assembled(keys, replies, queries)
    ensures Assembled(keys + [k], replies, queries.Put(k, replies[|keys|].value))
  {
    var keys' := keys + [k];
    var after := queries.Put(k, replies[|keys|].value);
    assert keys'[..|keys'| - 1] == keys;
    assert k in queries.entries <==> k in Dedup(keys);
    assert after.order == Dedup(keys');
    HoldsSnoc(keys, k, replies, queries.entries);
  }

  lemma HoldsSnoc(keys: seq<string>, k: string, replies: seq<Option<Topic>>, entries: map<string, Topic>)
    requires |keys| < |replies| && replies[|keys|].Some?
    requires HoldsLastReplies(keys, replies, entries)
    ensures HoldsLastReplies(keys + [k], replies, entries[k := replies[|keys|].value])
  {
    var keys' := keys + [k];
    var entries' := entries[k := replies[|keys|].value];
    forall j | LastRequest(keys', j)
      ensures j < |replies| && replies[j].Some? && keys'[j] in entries'
              && entries'[keys'[j]] == replies[j].value
    {
      if j < |keys| {
        assert keys'[|keys|] == k;
        forall m | j < m < |keys|
          ensures keys[m] != keys[j]
        {
          assert keys'[m] == keys[m];
        }
        assert LastRequest(keys, j);
      } else {
        assert keys'[j] == k;
      }
    }
  }

  /** `fetchWelcome`: the content that is published, or `None` when a request failed. */
  method FetchWelcome(welcome: Option<WelcomeReply>, replies: seq<Option<Topic>>)
    returns (faq: Option<FAQData>)
    ensures faq.Some? <==> welcome.Some? && AllAnswered(|welcome.value.queries|, replies)
    ensures faq.Some? ==> faq.value.welcome == welcome.value.message
    ensures faq.Some? ==> Assembled(welcome.value.queries, replies, faq.value.queries)
  {
    if welcome.None? {
      return None;
    }
    var welcomeJson := welcome.value;
    var queriesData := AssembleQueries(welcomeJson.queries, replies);
    if queriesData.None? {
      return None;
    }
    faq := Some(FAQData(welcomeJson.message, queriesData.value));
  }

  /** The published object has exactly the requested keys. */
  lemma AssembledKeys(keys: seq<string>, replies: seq<Option<Topic>>, queries: Dict<Topic>)
    requires Assembled(keys, replies, queries)
    ensures forall k :: k in queries.entries <==> k in keys
  {
    forall k
      ensures k in queries.entries <==> k in keys
    {
      assert k in queries.order <==> k in Dedup(keys);
    }
  }

  /** With no repeated key the published object lists the keys in request order and
      holds the reply to each request under its own key. */
  lemma AssembledDistinct(keys: seq<string>, replies: seq<Option<Topic>>, queries: Dict<Topic>)
    requires Assembled(keys, replies, queries)
    requires Distinct(keys)
    ensures queries.order == keys
    ensures forall i :: 0 <= i < |keys| ==>
              i < |replies| && replies[i].Some? && queries.entries[keys[i]] == replies[i].value
  {
    DedupOfDistinct(keys);
    forall i | 0 <= i < |keys|
      ensures i < |replies| && replies[i].Some? && queries.entries[keys[i]] == replies[i].value
    {
      assert LastRequest(keys, i);
    }
  }

  /** Replies that decoded as JSON give well-formed content. */
  lemma AssembledWellFormed(welcome: string, keys: seq<string>, replies: seq<Option<Topic>>,
                            queries: Dict<Topic>)
    requires Assembled(keys, replies, queries)
    requires forall i :: 0 <= i < |replies| && replies[i].Some? ==> Decoded(replies[i].value)
    ensures WellFormed(FAQData(welcome, queries))
  {
    forall k | k in queries.entries
      ensures Decoded(queries.entries[k])
    {
      assert k in Dedup(keys);
      var i :| 0 <= i < |keys| && keys[i] == k;
      LastOccurrence(keys, i);
    }
  }

  /** Every key that occurs at or after `i` has a last request. */
  lemma {:induction false} LastOccurrence(keys: seq<string>, i: int)
    requires 0 <= i < |keys|
    ensures exists j :: i <= j < |keys| && keys[j] == keys[i] && LastRequest(keys, j)
    decreases |keys| - i
  {
    if LastRequest(keys, i) {
      assert i <= i < |keys| && keys[i] == keys[i];
    } else {
      var j :| i < j < |keys| && keys[j] == keys[i];
      LastOccurrence(keys, j);
    }
  }
}
