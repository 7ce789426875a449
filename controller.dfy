/**
 * The feed screen's controller: the three stored fields it mutates and the operations that mutate them.
 * Each method is proved against the pure transitions of Pagination and Posts.
 */
module Controller {
  import opened Wrappers
  import opened Posts
  import opened Pagination

  class FeedViewController {
    var posts: seq<Post>
    var nextURLString: Option<string>
    var isLoading: bool
    /** The `more` of the fetch in flight, which its completion closure captures. */
    ghost var pending: Option<bool>

    /** A fetch is pending exactly while the flag is set. */
    ghost predicate Valid()
      reads this
    {
      isLoading <==> pending.Some?
    }

    /** The stored fields as one value. */
    function State(): (r: FeedState)
      reads this
    {
      FeedState(posts, nextURLString, isLoading)
    }

    /** A new screen: no posts, no cursor, nothing in flight. */
    constructor ()
      ensures Valid() && State() == Initial && pending == None
    {
      posts := [];
      nextURLString := None;
      isLoading := false;
      pending := None;
    }

    /** fetchPosts(more:): returns the URL handed to the HTTP client, or None when the guards drop the call. */
    method FetchPosts(more: bool) returns (request: Option<string>)
      requires Valid()
      modifies this
      ensures Valid()
      ensures request == StartFetch(old(State()), more).request
      ensures State() == StartFetch(old(State()), more).state
      ensures pending == if request.Some? then Some(more) else old(pending)
    {
      if isLoading {
        return None;
      }
      var urlString: string;
      if !more {
        urlString := FirstPageURL;
      } else if nextURLString.Some? {
        urlString := nextURLString.value;
      } else {
        return None;
      }
      isLoading := true;
      pending := Some(more);
      request := Some(urlString);
    }

    /** The completion closure of fetchPosts(more:), given the response already classified. */
    method ApplyResponse(more: bool, result: Response)
      requires Valid() && isLoading && pending == Some(more)
      modifies this
      ensures Valid() && pending == None
      ensures State() == ApplyResult(old(State()), more, result)
    {
      isLoading := false;
      pending := None;
      match result {
        case Failure =>
        case NonObject =>
        case Success(newPosts, next) =>
          if !more {
            posts := newPosts;
          } else {
            posts := posts + newPosts;
          }
          nextURLString := next;
      }
    }

    /** postDidLike: `postID` is None when the notification carries no Int under "postID". */
    method PostDidLike(postID: Option<int>)
      requires postID.Some? ==> CanLike(posts, postID.value)
      modifies this
      ensures postID.None? ==> posts == old(posts)
      ensures postID.Some? ==> posts == Liked(old(posts), postID.value)
      ensures nextURLString == old(nextURLString) && isLoading == old(isLoading) && pending == old(pending)
    {
      if postID.None? {
        return;
      }
      var id := postID.value;
      var i := 0;
      while i < |posts|
        invariant 0 <= i <= |posts|
        invariant posts == old(posts)
        invariant forall j :: 0 <= j < i ==> posts[j].id != id
      {
        var post := posts[i];
        if post.id == id {
          post := post.(likeCount := Some(post.likeCount.value + 1), isLiked := true);
          posts := posts[i := post];
          break;
        }
        i := i + 1;
      }
    }

    /** postDidUnlike: `postID` is None when the notification carries no Int under "postID". */
    method PostDidUnlike(postID: Option<int>)
      requires postID.Some? ==> CanUnlike(posts, postID.value)
      modifies this
      ensures postID.None? ==> posts == old(posts)
      ensures postID.Some? ==> posts == Unliked(old(posts), postID.value)
      ensures nextURLString == old(nextURLString) && isLoading == old(isLoading) && pending == old(pending)
    {
      if postID.None? {
        return;
      }
      var id := postID.value;
      var i := 0;
      while i < |posts|
        invariant 0 <= i <= |posts|
        invariant posts == old(posts)
        invariant forall j :: 0 <= j < i ==> posts[j].id != id
      {
        var post := posts[i];
        if post.id == id {
          var c := post.likeCount.value - 1;
          post := post.(likeCount := Some(if 0 < c then c else 0), isLiked := false);
          posts := posts[i := post];
          break;
        }
        i := i + 1;
      }
    }

    /** referenceSizeForFooterInSection: the footer holding the loading indicator is shown exactly while a next page is known. */
    function FooterHeight(): (h: int)
      reads this
      ensures h == 44 <==> nextURLString.Some?
      ensures h == 0 <==> nextURLString.None?
    {
      if nextURLString.Some? then 44 else 0
    }
  }

  /**
   * A refresh answered with one post and a cursor, then a load-more against that cursor
   * answered with one more post and no paging.next.
   */
  method RefreshThenLoadMore() {
    var feed := new FeedViewController();
    var request := feed.FetchPosts(false);
    assert request == Some(FirstPageURL) && feed.isLoading;
    var again := feed.FetchPosts(true);
    assert again == None;
    feed.ApplyResponse(false, Success([Post(1, Some(3), false)], Some("cursor-A")));
    assert feed.posts == [Post(1, Some(3), false)] && feed.nextURLString == Some("cursor-A") && !feed.isLoading;
    assert feed.FooterHeight() == 44;
    request := feed.FetchPosts(true);
    assert request == Some("cursor-A");
    feed.ApplyResponse(true, Success([Post(2, Some(0), false)], None));
    assert feed.posts == [Post(1, Some(3), false), Post(2, Some(0), false)] && feed.nextURLString == None;
    assert feed.FooterHeight() == 0;
    feed.PostDidLike(Some(1));
    assert feed.posts[0] == Post(1, Some(4), true);
    feed.PostDidUnlike(Some(2));
    assert feed.posts[1] == Post(2, Some(0), false);
    feed.PostDidUnlike(Some(1));
    assert feed.posts == [Post(1, Some(3), false), Post(2, Some(0), false)];
  }
}
