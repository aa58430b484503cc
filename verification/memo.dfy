/** The single-fetch cache every loader strategy keeps for its raw upstream
    list: a field that starts out `null`, is fetched only while it is still
    `null`, and is assigned only once a fetch has fully succeeded. */
module Memo {
  import opened Base

  /** What one guarded read of a cached list gives back: the list (or the
      exception), the cache afterwards, and whether upstream was contacted. */
  datatype Loaded<T> = Loaded(list: Result<seq<T>>, cache: Option<seq<T>>, fetched: bool)

  /** `if (cache == null) cache = fetch(); return cache;` where a failing
      fetch throws before the assignment. `upstream` is what the fetch would
      produce if it were made. */
  function Load<T>(cache: Option<seq<T>>, upstream: Fetch<seq<T>>): (r: Loaded<T>)
    ensures r.fetched <==> cache.None?
    ensures cache.Some? ==> r.cache == cache
    ensures r.list.Ok? <==> r.cache.Some?
    ensures r.cache.Some? ==> r.list.value == r.cache.value
    ensures r.fetched && upstream.Fetched? ==> r.cache == Some(upstream.content)
    ensures upstream.FetchFailed? && r.list.Err? ==> r.list.message == upstream.reason
    ensures cache.None? && upstream.FetchFailed? ==> r.cache.None? && r.list == Err(upstream.reason)
  {
    match cache
    case Some(list) => Loaded(Ok(list), cache, false)
    case None =>
      match upstream
      case Fetched(list) => Loaded(Ok(list), Some(list), true)
      case FetchFailed(reason) => Loaded(Err(reason), None, true)
  }

  /** Two reads in a row contact upstream exactly once when the first one
      succeeds, whatever upstream would say the second time, and both return
      the same list; after a failed first read the second one fetches again. */
  lemma LoadTwice<T>(cache: Option<seq<T>>, first: Fetch<seq<T>>, second: Fetch<seq<T>>)
    ensures var r1 := Load(cache, first);
            var r2 := Load(r1.cache, second);
            && (r1.list.Ok? ==> !r2.fetched && r2.list == r1.list && r2.cache == r1.cache)
            && (r1.list.Err? ==> r2.fetched && r2.list == Load(None, second).list)
            && (cache.None? && first.Fetched? ==> r1.fetched && !r2.fetched)
  {
  }

  /** Once filled, the cache answers every later read unchanged. */
  lemma {:induction false} LoadStable<T>(list: seq<T>, upstreams: seq<Fetch<seq<T>>>)
    ensures LoadMany(Some(list), upstreams) == (Some(list), 0)
    decreases |upstreams|
  {
    if upstreams != [] {
      LoadStable(list, upstreams[1..]);
    }
  }

  /** The cache left by a sequence of reads and the number of fetches made. */
  function LoadMany<T>(cache: Option<seq<T>>, upstreams: seq<Fetch<seq<T>>>): (r: (Option<seq<T>>, nat))
    ensures cache.Some? ==> r.0 == cache
    ensures r.1 <= |upstreams|
    decreases |upstreams|
  {
    if upstreams == [] then (cache, 0)
    else
      var l := Load(cache, upstreams[0]);
      var rest := LoadMany(l.cache, upstreams[1..]);
      (rest.0, rest.1 + (if l.fetched then 1 else 0))
  }

  /** However many reads are made, at most one fetch succeeds: every fetch
      before the first success failed, and none happens after it. */
  lemma {:induction false} AtMostOneSuccessfulFetch<T>(upstreams: seq<Fetch<seq<T>>>, k: nat)
    requires k < |upstreams| && upstreams[k].Fetched?
    requires forall j :: 0 <= j < k ==> upstreams[j].FetchFailed?
    ensures LoadMany(None, upstreams) == (Some(upstreams[k].content), k + 1)
    decreases k
  {
    if k == 0 {
      LoadStable(upstreams[0].content, upstreams[1..]);
    } else {
      AtMostOneSuccessfulFetch(upstreams[1..], k - 1);
    }
  }
}
