/** The bounded replay cache: what a map and a queue of 1024 request ids remember of everything executed. */
module ReplayCache {
  import opened Postcard
  import opened Protocol

  const MAX_CACHED_REQUESTS := 1024

  /** The responses that can still be replayed: the last 1024 of all executed. */
  function Recent(executed: seq<Response>): (r: seq<Response>)
    ensures |r| <= MAX_CACHED_REQUESTS && |r| <= |executed|
  {
    if |executed| <= MAX_CACHED_REQUESTS then executed else executed[|executed| - MAX_CACHED_REQUESTS..]
  }

  predicate Distinct(responses: seq<Response>) {
    forall i, j :: 0 <= i < j < |responses| ==> responses[i].requestId != responses[j].requestId
  }

  /** The map and the queue hold exactly the responses `recent`. */
  predicate Remembers(cached: map<Uuid, Response>, order: seq<Uuid>, recent: seq<Response>) {
    && Distinct(recent)
    && |order| == |recent| && (forall i :: 0 <= i < |order| ==> order[i] == recent[i].requestId)
    && (forall i :: 0 <= i < |recent| ==> recent[i].requestId in cached && cached[recent[i].requestId] == recent[i])
    && (forall id <- cached :: id in order)
  }

  predicate Caches(cached: map<Uuid, Response>, order: seq<Uuid>, executed: seq<Response>) {
    Remembers(cached, order, Recent(executed))
  }

  /** The queue and the map after a response was inserted and, if need be, the oldest evicted. */
  function Inserted(cached: map<Uuid, Response>, order: seq<Uuid>, response: Response)
    : (map<Uuid, Response>, seq<Uuid>)
  {
    var all := cached[response.requestId := response];
    var queue := order + [response.requestId];
    if |queue| > MAX_CACHED_REQUESTS then (all - {queue[0]}, queue[1..]) else (all, queue)
  }

  lemma OneMoreRemembered(cached: map<Uuid, Response>, order: seq<Uuid>, recent: seq<Response>, response: Response)
    requires Remembers(cached, order, recent) && response.requestId !in cached
    ensures Remembers(cached[response.requestId := response], order + [response.requestId], recent + [response])
  {
    var c, all := cached[response.requestId := response], recent + [response];
    forall i | 0 <= i < |all|
      ensures all[i].requestId in c && c[all[i].requestId] == all[i]
      ensures i < |recent| ==> all[i].requestId != response.requestId
    {
      assert i < |recent| ==> recent[i].requestId in cached;
    }
  }

  lemma OldestForgotten(cached: map<Uuid, Response>, order: seq<Uuid>, recent: seq<Response>)
    requires Remembers(cached, order, recent) && recent != []
    ensures Remembers(cached - {order[0]}, order[1..], recent[1..])
  {
    hide Distinct;
    var c, rest := cached - {order[0]}, recent[1..];
    DistinctTail(recent);
    forall i | 0 <= i < |rest|
      ensures rest[i].requestId in c && c[rest[i].requestId] == rest[i]
    {
      assert rest[i] == recent[i + 1] && recent[0].requestId != recent[i + 1].requestId;
    }
    forall id <- c
      ensures id in order[1..]
    {
      assert id in order && id != order[0];
    }
  }

  lemma DistinctTail(responses: seq<Response>)
    requires Distinct(responses) && responses != []
    ensures Distinct(responses[1..])
    ensures forall i :: 0 < i < |responses| ==> responses[0].requestId != responses[i].requestId
  {
    var rest := responses[1..];
    forall i, j | 0 <= i < j < |rest|
      ensures rest[i].requestId != rest[j].requestId
    {
      assert rest[i] == responses[i + 1] && rest[j] == responses[j + 1];
    }
  }

  /** Told by positions: the queue is the ids of the last 1024 executed requests, oldest first, all different,
      and the map takes each of them, and nothing else, to its response. */
  predicate HoldsLast(cached: map<Uuid, Response>, order: seq<Uuid>, executed: seq<Response>) {
    && |order| == (if |executed| < 1024 then |executed| else 1024)
    && (forall k :: 0 <= k < |order| ==>
          var r := executed[|executed| - |order| + k];
          order[k] == r.requestId && order[k] in cached && cached[order[k]] == r)
    && (forall i, j :: 0 <= i < j < |order| ==> order[i] != order[j])
    && (forall id <- cached :: id in order)
  }

  lemma CachesHoldLast(cached: map<Uuid, Response>, order: seq<Uuid>, executed: seq<Response>)
    requires Caches(cached, order, executed)
    ensures HoldsLast(cached, order, executed)
  {
    var recent := Recent(executed);
    forall k | 0 <= k < |order|
      ensures executed[|executed| - |order| + k] == recent[k]
      ensures order[k] == recent[k].requestId && order[k] in cached && cached[order[k]] == recent[k]
    {
    }
  }

  /** Inserting the response of an uncached request keeps the cache the last 1024 responses. */
  lemma InsertedCaches(cached: map<Uuid, Response>, order: seq<Uuid>, executed: seq<Response>, response: Response)
    requires Caches(cached, order, executed) && response.requestId !in cached
    ensures var (c, o) := Inserted(cached, order, response);
      Caches(c, o, executed + [response]) && HoldsLast(c, o, executed + [response])
  {
    var (c, o) := Inserted(cached, order, response);
    assert Caches(c, o, executed + [response]) by { StillCaches(cached, order, executed, response); }
    CachesHoldLast(c, o, executed + [response]);
  }

  lemma StillCaches(cached: map<Uuid, Response>, order: seq<Uuid>, executed: seq<Response>, response: Response)
    requires Caches(cached, order, executed) && response.requestId !in cached
    ensures var (c, o) := Inserted(cached, order, response); Caches(c, o, executed + [response])
  {
    hide Remembers;
    var recent := Recent(executed);
    RememberedLength(cached, order, recent);
    OneMoreRemembered(cached, order, recent, response);
    if |recent| == MAX_CACHED_REQUESTS {
      OldestForgotten(cached[response.requestId := response], order + [response.requestId], recent + [response]);
    }
    assert Recent(executed + [response])
        == if |recent| < MAX_CACHED_REQUESTS then recent + [response] else (recent + [response])[1..];
  }

  lemma RememberedLength(cached: map<Uuid, Response>, order: seq<Uuid>, recent: seq<Response>)
    requires Remembers(cached, order, recent)
    ensures |order| == |recent|
  {
  }

  /** An id is answered from the cache exactly if one of the last 1024 executed requests had it, and then
      with that request's response. */
  lemma AnsweredFromRecent(cached: map<Uuid, Response>, order: seq<Uuid>, executed: seq<Response>, id: Uuid)
    requires Caches(cached, order, executed)
    ensures id in cached <==>
              exists i :: 0 <= i < |executed| && |executed| - 1024 <= i && executed[i].requestId == id
    ensures forall i :: 0 <= i < |executed| && |executed| - 1024 <= i && executed[i].requestId == id ==>
              id in cached && cached[id] == executed[i]
    ensures |cached| == |order| <= 1024
  {
    hide Caches, HoldsLast;
    CachesHoldLast(cached, order, executed);
    AtMost1024(cached, order, executed);
    if id in cached {
      var i := AnsweredBy(cached, order, executed, id);
    }
    forall i | 0 <= i < |executed| && |executed| - 1024 <= i && executed[i].requestId == id
      ensures id in cached && cached[id] == executed[i]
    {
      StillAnswered(cached, order, executed, i);
    }
  }

  lemma AnsweredBy(cached: map<Uuid, Response>, order: seq<Uuid>, executed: seq<Response>, id: Uuid) returns (i: nat)
    requires HoldsLast(cached, order, executed) && id in cached
    ensures i < |executed| && |executed| - 1024 <= i && executed[i].requestId == id
  {
    var k :| 0 <= k < |order| && order[k] == id;
    i := |executed| - |order| + k;
  }

  lemma StillAnswered(cached: map<Uuid, Response>, order: seq<Uuid>, executed: seq<Response>, i: nat)
    requires HoldsLast(cached, order, executed) && i < |executed| && |executed| - 1024 <= i
    ensures executed[i].requestId in cached && cached[executed[i].requestId] == executed[i]
  {
    var k := i - (|executed| - |order|);
    assert order[k] == executed[|executed| - |order| + k].requestId;
  }

  /** The cache is bounded. */
  lemma AtMost1024(cached: map<Uuid, Response>, order: seq<Uuid>, executed: seq<Response>)
    requires HoldsLast(cached, order, executed)
    ensures |cached| == |order| <= 1024
  {
    assert cached.Keys == Ids(order);
    DistinctIds(order);
  }

  function Ids(order: seq<Uuid>): set<Uuid> {
    set id <- order
  }

  lemma IdsSnoc(order: seq<Uuid>, id: Uuid)
    ensures Ids(order + [id]) == Ids(order) + {id}
  {
  }

  lemma {:induction false} DistinctIds(order: seq<Uuid>)
    requires forall i, j :: 0 <= i < j < |order| ==> order[i] != order[j]
    ensures |Ids(order)| == |order|
  {
    if order != [] {
      var n := |order| - 1;
      DistinctIds(order[..n]);
      IdsSnoc(order[..n], order[n]);
      assert order == order[..n] + [order[n]];
    }
  }
}
