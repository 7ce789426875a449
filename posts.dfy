/**
 * The posts of the feed and the in-place like/unlike reconciliation
 * (FeedViewController.postDidLike / postDidUnlike).
 */
module Posts {
  import opened Wrappers

  /** The bounds of Swift's `Int` on a 64-bit device; `+` and `-` trap outside them. */
  const IntMax: int := 0x7fff_ffff_ffff_ffff
  const IntMin: int := -0x8000_0000_0000_0000

  /** A post as the feed sees it: its id, its like count (absent when the server sent none) and whether the user likes it. */
  datatype Post = Post(id: int, likeCount: Option<int>, isLiked: bool)

  /** The index of the first post whose id is `id`, if there is one. */
  function FirstIndexOf(posts: seq<Post>, id: int): (r: Option<nat>)
    ensures r.None? <==> forall j :: 0 <= j < |posts| ==> posts[j].id != id
    ensures r.Some? ==> r.value < |posts| && posts[r.value].id == id
    ensures r.Some? ==> forall j :: 0 <= j < r.value ==> posts[j].id != id
  {
    if |posts| == 0 then None
    else if posts[0].id == id then Some(0)
    else match FirstIndexOf(posts[1..], id)
      case None => None
      case Some(k) => Some(k + 1)
  }

  /** Both sequences have the same length and the same id at every index. */
  ghost predicate SameIds(a: seq<Post>, b: seq<Post>) {
    |a| == |b| && forall j :: 0 <= j < |a| ==> a[j].id == b[j].id
  }

  /** No two posts share an id. */
  ghost predicate UniqueIds(posts: seq<Post>) {
    forall j, k :: 0 <= j < k < |posts| ==> posts[j].id != posts[k].id
  }

  /** Which post an event reaches depends on the ids alone. */
  lemma {:induction false} FirstIndexOfSameIds(a: seq<Post>, b: seq<Post>, id: int)
    requires SameIds(a, b)
    ensures FirstIndexOf(a, id) == FirstIndexOf(b, id)
  {
    if |a| > 0 && a[0].id != id {
      assert SameIds(a[1..], b[1..]);
      FirstIndexOfSameIds(a[1..], b[1..], id);
    }
  }

  /** With unique ids the first match is the only match. */
  lemma UniqueIdsFirstIndex(posts: seq<Post>, k: nat)
    requires UniqueIds(posts) && k < |posts|
    ensures FirstIndexOf(posts, posts[k].id) == Some(k)
  {
  }

  /**
   * The post after a like event: the count goes up by one and the post is liked.
   * The source force-unwraps the count and adds with Swift's trapping `+`.
   */
  function WithLike(p: Post): (q: Post)
    requires p.likeCount.Some? && p.likeCount.value < IntMax
    ensures q.id == p.id && q.isLiked
    ensures q.likeCount.Some? && q.likeCount.value == p.likeCount.value + 1 <= IntMax
  {
    p.(likeCount := Some(p.likeCount.value + 1), isLiked := true)
  }

  /**
   * The post after an unlike event: the count goes down by one, but not below 0, and the post is not liked.
   * The source force-unwraps the count and subtracts with Swift's trapping `-`.
   */
  function WithUnlike(p: Post): (q: Post)
    requires p.likeCount.Some? && p.likeCount.value > IntMin
    ensures q.id == p.id && !q.isLiked
    ensures q.likeCount.Some? && q.likeCount.value >= 0
    ensures p.likeCount.value >= 1 ==> q.likeCount.value == p.likeCount.value - 1
    ensures p.likeCount.value <= 0 ==> q.likeCount.value == 0
  {
    var c := p.likeCount.value - 1;
    p.(likeCount := Some(if 0 < c then c else 0), isLiked := false)
  }

  /** A like event for `id` does not crash: the post it reaches (if any) has a count that can be incremented. */
  predicate CanLike(posts: seq<Post>, id: int) {
    match FirstIndexOf(posts, id)
    case None => true
    case Some(i) => posts[i].likeCount.Some? && posts[i].likeCount.value < IntMax
  }

  /** An unlike event for `id` does not crash: the post it reaches (if any) has a count that can be decremented. */
  predicate CanUnlike(posts: seq<Post>, id: int) {
    match FirstIndexOf(posts, id)
    case None => true
    case Some(i) => posts[i].likeCount.Some? && posts[i].likeCount.value > IntMin
  }

  /** The posts after a like event for `id`: only the first post with that id changes. */
  function Liked(posts: seq<Post>, id: int): (r: seq<Post>)
    requires CanLike(posts, id)
    ensures SameIds(posts, r)
    ensures FirstIndexOf(posts, id).None? ==> r == posts
    ensures forall j :: 0 <= j < |posts| && FirstIndexOf(posts, id) != Some(j) ==> r[j] == posts[j]
    ensures FirstIndexOf(posts, id).Some? ==>
      var i := FirstIndexOf(posts, id).value;
      r[i].id == id && r[i].isLiked && r[i].likeCount == Some(posts[i].likeCount.value + 1)
  {
    match FirstIndexOf(posts, id)
    case None => posts
    case Some(i) => posts[i := WithLike(posts[i])]
  }

  /** The posts after an unlike event for `id`: only the first post with that id changes, and its count stays non-negative. */
  function Unliked(posts: seq<Post>, id: int): (r: seq<Post>)
    requires CanUnlike(posts, id)
    ensures SameIds(posts, r)
    ensures FirstIndexOf(posts, id).None? ==> r == posts
    ensures forall j :: 0 <= j < |posts| && FirstIndexOf(posts, id) != Some(j) ==> r[j] == posts[j]
    ensures FirstIndexOf(posts, id).Some? ==>
      var i := FirstIndexOf(posts, id).value;
      var c := posts[i].likeCount.value;
      r[i].id == id && !r[i].isLiked && r[i].likeCount == Some(if c >= 1 then c - 1 else 0)
  {
    match FirstIndexOf(posts, id)
    case None => posts
    case Some(i) => posts[i := WithUnlike(posts[i])]
  }

  /** Events keep the ids, so unique ids stay unique. */
  lemma LikedKeepsUniqueIds(posts: seq<Post>, id: int)
    requires CanLike(posts, id) && UniqueIds(posts)
    ensures UniqueIds(Liked(posts, id))
  {
    var r := Liked(posts, id);
    forall j, k | 0 <= j < k < |r| ensures r[j].id != r[k].id {
      assert r[j].id == posts[j].id && r[k].id == posts[k].id;
    }
  }

  lemma UnlikedKeepsUniqueIds(posts: seq<Post>, id: int)
    requires CanUnlike(posts, id) && UniqueIds(posts)
    ensures UniqueIds(Unliked(posts, id))
  {
    var r := Unliked(posts, id);
    forall j, k | 0 <= j < k < |r| ensures r[j].id != r[k].id {
      assert r[j].id == posts[j].id && r[k].id == posts[k].id;
    }
  }

  /**
   * A like followed by an unlike of the same id, on a post whose count c is present and non-negative,
   * gives the post back its count c and leaves it not liked; every other post is as it was.
   * Ids need not be unique: both events reach the same first match.
   */
  lemma LikeThenUnlike(posts: seq<Post>, id: int)
    requires CanLike(posts, id)
    requires FirstIndexOf(posts, id).Some? ==> posts[FirstIndexOf(posts, id).value].likeCount.value >= 0
    ensures CanUnlike(Liked(posts, id), id)
    ensures FirstIndexOf(posts, id).None? ==> Unliked(Liked(posts, id), id) == posts
    ensures FirstIndexOf(posts, id).Some? ==>
      var i := FirstIndexOf(posts, id).value;
      Unliked(Liked(posts, id), id) == posts[i := posts[i].(isLiked := false)]
  {
    var liked := Liked(posts, id);
    FirstIndexOfSameIds(posts, liked, id);
    match FirstIndexOf(posts, id)
    case None =>
    case Some(i) =>
      var back := Unliked(liked, id);
      assert back[i] == posts[i].(isLiked := false);
      assert back == posts[i := posts[i].(isLiked := false)];
  }

  /** Hence a like then an unlike on a post that was not liked restores the feed exactly. */
  lemma LikeThenUnlikeRestores(posts: seq<Post>, id: int)
    requires CanLike(posts, id)
    requires FirstIndexOf(posts, id).Some? ==>
      var p := posts[FirstIndexOf(posts, id).value];
      p.likeCount.value >= 0 && !p.isLiked
    ensures CanUnlike(Liked(posts, id), id)
    ensures Unliked(Liked(posts, id), id) == posts
  {
    LikeThenUnlike(posts, id);
    if FirstIndexOf(posts, id).Some? {
      var i := FirstIndexOf(posts, id).value;
      assert posts[i].(isLiked := false) == posts[i];
    }
  }
}
