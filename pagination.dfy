/**
 * The pagination state of the feed as a value, and the two halves of a fetch:
 * starting it (fetchPosts(more:)) and applying its completion (the responseJSON closure).
 */
module Pagination {
  import opened Wrappers
  import opened Posts

  /** The endpoint of the first page: the feed, ten posts per page. */
  const FirstPageURL: string := "https://api.graygram.com/feed?limit=10"

  /** The three stored fields of the feed screen. */
  datatype FeedState = FeedState(posts: seq<Post>, cursor: Option<string>, isLoading: bool)

  /** The state the screen starts in. */
  const Initial: FeedState := FeedState([], None, false)

  /**
   * A completion as the closure classifies it: a transport failure, a body that is not
   * a JSON object, or an object whose `data` maps to `newPosts` and whose `paging.next` is `next`.
   */
  datatype Response = Failure | NonObject | Success(newPosts: seq<Post>, next: Option<string>)

  /** What starting a fetch does: the new state, and the URL requested, if one is. */
  datatype Started = Started(state: FeedState, request: Option<string>)

  /** Starting a fetch: a refresh (`more == false`) or a load-more (`more == true`). */
  function StartFetch(s: FeedState, more: bool): (r: Started)
    // nothing is requested while a fetch is in flight, nor for a load-more with no cursor
    ensures r.request.None? <==> s.isLoading || (more && s.cursor.None?)
    ensures r.request.None? ==> r.state == s
    // otherwise a refresh asks for the first page whatever the cursor, a load-more for exactly the cursor
    ensures r.request.Some? && !more ==> r.request == Some(FirstPageURL)
    ensures r.request.Some? && more ==> r.request == s.cursor
    // and the request is in flight; posts and cursor are untouched
    ensures r.request.Some? ==> r.state == s.(isLoading := true)
  {
    if s.isLoading then Started(s, None)
    else if !more then Started(s.(isLoading := true), Some(FirstPageURL))
    else match s.cursor
      case None => Started(s, None)
      case Some(url) => Started(s.(isLoading := true), Some(url))
  }

  /** Applying a completion for a fetch with the given `more`. */
  function ApplyResult(s: FeedState, more: bool, result: Response): (r: FeedState)
    // every completion ends the fetch
    ensures !r.isLoading
    // a success replaces the posts on a refresh and appends to them on a load-more
    ensures result.Success? && !more ==> r.posts == result.newPosts
    ensures result.Success? && more ==> r.posts == s.posts + result.newPosts
    // and the cursor is the response's, absent when the response has none
    ensures result.Success? ==> r.cursor == result.next
    // a failure or a non-object body keeps posts and cursor
    ensures !result.Success? ==> r.posts == s.posts && r.cursor == s.cursor
  {
    var done := s.(isLoading := false);
    match result
    case Failure => done
    case NonObject => done
    case Success(newPosts, next) =>
      var posts := if !more then newPosts else s.posts + newPosts;
      done.(posts := posts, cursor := next)
  }

  /** One fetch cycle as the screen drives it: start a fetch and, if a request went out, apply its completion. */
  function Round(s: FeedState, more: bool, result: Response): (r: FeedState) {
    var started := StartFetch(s, more);
    if started.request.None? then s else ApplyResult(started.state, more, result)
  }

  /** Fetch cycles of one kind, one per response, in order. */
  function Run(s: FeedState, more: bool, results: seq<Response>): (r: FeedState)
    decreases |results|
  {
    if results == [] then s else Run(Round(s, more, results[0]), more, results[1..])
  }

  /** Every response is a success. */
  ghost predicate AllSucceed(results: seq<Response>) {
    forall k :: 0 <= k < |results| ==> results[k].Success?
  }

  /** The posts of successful responses, concatenated in order. */
  function Pages(results: seq<Response>): (r: seq<Post>)
    requires AllSucceed(results)
  {
    if results == [] then [] else results[0].newPosts + Pages(results[1..])
  }

  /** A cycle never leaves a fetch in flight when none was. */
  lemma {:induction false} RunEndsIdle(s: FeedState, more: bool, results: seq<Response>)
    requires !s.isLoading
    ensures !Run(s, more, results).isLoading
    decreases |results|
  {
    if results != [] {
      RunEndsIdle(Round(s, more, results[0]), more, results[1..]);
    }
  }

  /** Starts of the given kinds, one after another, with no completion between them: the final state and the requests issued. */
  function StartAll(s: FeedState, mores: seq<bool>): (r: (FeedState, seq<Option<string>>))
    decreases |mores|
  {
    if mores == [] then (s, [])
    else
      var first := StartFetch(s, mores[0]);
      var rest := StartAll(first.state, mores[1..]);
      (rest.0, [first.request] + rest.1)
  }

  /**
   * Once a fetch has been started, every further start, refresh or load-more, is dropped until its completion:
   * none issues a request and the state stays as the first start left it.
   */
  lemma {:induction false} InFlightDropsStarts(s: FeedState, more: bool, mores: seq<bool>)
    requires StartFetch(s, more).request.Some?
    ensures StartAll(StartFetch(s, more).state, mores).0 == StartFetch(s, more).state
    ensures |StartAll(StartFetch(s, more).state, mores).1| == |mores|
    ensures forall k :: 0 <= k < |mores| ==> StartAll(StartFetch(s, more).state, mores).1[k].None?
    decreases |mores|
  {
    if mores != [] {
      var t := StartFetch(s, more).state;
      assert StartFetch(t, mores[0]) == Started(t, None);
      InFlightDropsStarts(s, more, mores[1..]);
      var tail := StartAll(t, mores[1..]).1;
      assert StartAll(t, mores).1 == [None] + tail;
    }
  }

  /** Successive successful refreshes do not accumulate: the feed is the last response's page and cursor. */
  lemma {:induction false} RefreshesReplace(s: FeedState, results: seq<Response>)
    requires !s.isLoading
    requires results != [] && AllSucceed(results)
    ensures Run(s, false, results).posts == results[|results| - 1].newPosts
    ensures Run(s, false, results).cursor == results[|results| - 1].next
    ensures !Run(s, false, results).isLoading
    decreases |results|
  {
    var s' := Round(s, false, results[0]);
    if |results| > 1 {
      assert AllSucceed(results[1..]) by {
        forall k | 0 <= k < |results| - 1 ensures results[1..][k].Success? {
          assert results[1..][k] == results[k + 1];
        }
      }
      RefreshesReplace(s', results[1..]);
    }
  }

  /**
   * Successive successful load-mores, each response but the last announcing a next page,
   * starting from an idle state with a cursor: the feed is the old posts followed by every page in order,
   * and the cursor is the last response's.
   */
  lemma {:induction false} LoadMoresAppend(s: FeedState, results: seq<Response>)
    requires !s.isLoading && s.cursor.Some?
    requires AllSucceed(results)
    requires forall k :: 0 <= k < |results| - 1 ==> results[k].next.Some?
    ensures Run(s, true, results).posts == s.posts + Pages(results)
    ensures results != [] ==> Run(s, true, results).cursor == results[|results| - 1].next
    ensures !Run(s, true, results).isLoading
    decreases |results|
  {
    if results != [] {
      var s' := Round(s, true, results[0]);
      assert s'.posts == s.posts + results[0].newPosts;
      var rest := results[1..];
      assert AllSucceed(rest) by {
        forall k | 0 <= k < |rest| ensures rest[k].Success? {
          assert rest[k] == results[k + 1];
        }
      }
      if rest != [] {
        assert s'.cursor.Some?;
        assert forall k :: 0 <= k < |rest| - 1 ==> rest[k] == results[k + 1];
        LoadMoresAppend(s', rest);
        assert s.posts + results[0].newPosts + Pages(rest) == s.posts + (results[0].newPosts + Pages(rest));
      } else {
        assert Pages(rest) == [];
      }
    }
  }
}
