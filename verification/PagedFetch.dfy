/** The paged fetches: each loop, against a stable remote list, returns a prefix of that list. */
module PagedFetch {

  /** The answer of the remote list `s` to a request for `limit` elements from `offset` on. */
  function Page<T>(s: seq<T>, offset: nat, limit: nat): seq<T> {
    if offset >= |s| then [] else if offset + limit >= |s| then s[offset..] else s[offset..offset + limit]
  }

  function Min(a: nat, b: nat): nat {
    if a < b then a else b
  }

  const ORDER_LIMIT: nat := 100
  const ORDER_WINDOW: nat := 10000

  /** `fetch_all_allegro_orders`: pages of 100, as long as a page fits below offset 10000. */
  method FetchAllOrders<T>(s: seq<T>) returns (orders: seq<T>, total: nat, requests: nat)
    ensures orders == s[..Min(|s|, ORDER_WINDOW)]
    ensures total == |s|
    ensures requests == Min(|s| / ORDER_LIMIT + 1, ORDER_WINDOW / ORDER_LIMIT)
  {
    var offset: nat := 0;
    orders, total, requests := [], 0, 0;
    while true
      invariant offset == ORDER_LIMIT * requests && offset <= ORDER_WINDOW && offset <= |s|
      invariant orders == s[..offset]
      invariant requests > 0 ==> total == |s|
      decreases ORDER_WINDOW - offset
    {
      if offset + ORDER_LIMIT > ORDER_WINDOW {
        break;
      }
      var forms := Page(s, offset, ORDER_LIMIT);
      requests := requests + 1;
      total := |s|;
      if forms == [] {
        assert s[..offset] == s;
        break;
      }
      orders := orders + forms;
      if |forms| < ORDER_LIMIT {
        assert orders == s;
        break;
      }
      offset := offset + ORDER_LIMIT;
    }
  }

  const THREAD_LIMIT: nat := 20

  /** `fetch_message_threads` and `fetch_discussions`: pages of 20 until a short page; the whole list. */
  method FetchThreads<T>(s: seq<T>) returns (threads: seq<T>)
    ensures threads == s
  {
    var offset: nat := 0;
    threads := [];
    while true
      invariant offset <= |s| && threads == s[..offset]
      decreases |s| - offset
    {
      var page := Page(s, offset, THREAD_LIMIT);
      threads := threads + page;
      if page == [] || |page| < THREAD_LIMIT {
        assert threads == s;
        break;
      }
      offset := offset + THREAD_LIMIT;
    }
  }

  /** `fetch_discussion_issues`: pages of at most 100 until enough, cut to the limit. */
  method FetchIssues<T>(s: seq<T>, limit: nat) returns (issues: seq<T>)
    ensures issues == s[..Min(|s|, limit)]
  {
    var pageLimit: nat := Min(limit, 100);
    var offset: nat := 0;
    var all: seq<T> := [];
    while true
      invariant offset <= |s| && all == s[..offset]
      invariant limit > 0 ==> pageLimit > 0
      decreases |s| - offset
    {
      var page := Page(s, offset, pageLimit);
      all := all + page;
      assert |all| == Min(|s|, offset + pageLimit) && all == s[..|all|];
      if page == [] || |page| < pageLimit || |all| >= limit {
        break;
      }
      offset := offset + pageLimit;
    }
    assert |all| <= |s| && all == s[..|all|] && (|all| == |s| || |all| >= limit);
    issues := all[..Min(|all|, limit)];
  }
}
