# Graygram feed state

A Dafny model of the state behind Graygram's feed screen (`FeedViewController`). The screen keeps three
fields: the loaded `posts`, the next-page cursor `nextURLString`, and the in-flight flag `isLoading`.
Four operations change them:

- `fetchPosts(more:)` starts a refresh or a load-more. It is guarded by `isLoading` and, for a load-more, by the cursor.
- Its completion closure clears the flag. It then replaces or appends the posts and overwrites the cursor.
- `postDidLike` updates the first post with the event's id in place.
- `postDidUnlike` does the same, with the count clamped at 0.

The footer's height follows the cursor.

Files:

- `wrappers.dfy`: `Option`, standing for Swift optionals.
- `posts.dfy` (module `Posts`): the `Post` value and the first-match lookup. Also the pure like/unlike transitions (`Liked`, `Unliked`) and the lemmas about them.
- `pagination.dfy` (module `Pagination`): the three fields as a value `FeedState`. Also the two halves of a fetch (`StartFetch`, `ApplyResult`), fetch cycles (`Round`, `Run`) and the lemmas about successive refreshes and load-mores.
- `controller.dfy` (module `Controller`): the class `FeedViewController` with the source's three mutable fields. Each method's `ensures` ties the new fields to the pure transitions. The like/unlike methods keep the source's scan-and-break loop. A client method `RefreshThenLoadMore` walks one refresh, one load-more and three like events through those contracts.

Modelling choices:

- The HTTP call is split in two. `FetchPosts` returns the URL it would request, or `None` when a guard drops the call. `ApplyResponse` takes the response, already classified as `Failure`, `NonObject` (the body is not a JSON object, line 87) or `Success(newPosts, next)`.
- A notification whose `userInfo` has no Int under `"postID"` is given as `None`. It is a no-op.
- An absent count crashes the source at `likeCount!` (lines 122, 135). The model requires the count of the matched post to be present and invents no other policy.
- Swift's `+ 1` and `- 1` trap on overflow. The model takes `Int` as 64 bits wide, as on 64-bit devices. So the like event requires the matched count to be below `Int.max` (`CanLike`), and the unlike event requires it above `Int.min` (`CanUnlike`).
- A load-more is dropped whenever the cursor is absent (lines 72-75), including before any page has loaded.
- `FetchPosts` records, in a ghost field `pending`, the `more` of the fetch it started. The completion closure captures that same `more` (lines 80, 91) and runs only while that fetch is in flight. So `ApplyResponse` requires `isLoading` and `pending == Some(more)`.
- The like-then-unlike round trip does not need unique ids. Both events reach the same first match, because neither event changes any id.

## Model

| member | source | states |
|---|---|---|
| Posts.FirstIndexOf | Graygram/Sources/ViewControllers/FeedViewController.swift:120-121 | the scan's stopping point: None exactly when no post has the id; otherwise an in-range index holding the id with no earlier index holding it |
| Posts.FirstIndexOfSameIds | Graygram/Sources/ViewControllers/FeedViewController.swift:133-134 | two feeds with the same ids at every index send an event for any id to the same index |
| Posts.UniqueIdsFirstIndex | Graygram/Sources/ViewControllers/FeedViewController.swift:120-121 | when ids are unique, the post reached for id `posts[k].id` is exactly `k` |
| Posts.WithLike | Graygram/Sources/ViewControllers/FeedViewController.swift:122-123 | a liked post keeps its id, is liked, and its present count is one more than before, within Int range |
| Posts.WithUnlike | Graygram/Sources/ViewControllers/FeedViewController.swift:135-136 | an unliked post keeps its id, is not liked, and its count is one less, but never below 0 |
| Posts.Liked | Graygram/Sources/ViewControllers/FeedViewController.swift:120-127 | a like event keeps length and ids; with no match the feed is unchanged; every index but the first match is unchanged; the first match gets count + 1 and isLiked |
| Posts.Unliked | Graygram/Sources/ViewControllers/FeedViewController.swift:133-140 | an unlike event keeps length and ids; with no match the feed is unchanged; every index but the first match is unchanged; the first match gets max(0, count - 1) and not liked |
| Posts.LikedKeepsUniqueIds | Graygram/Sources/ViewControllers/FeedViewController.swift:120-127 | a like event keeps ids unique |
| Posts.UnlikedKeepsUniqueIds | Graygram/Sources/ViewControllers/FeedViewController.swift:133-140 | an unlike event keeps ids unique |
| Posts.LikeThenUnlike | Graygram/Sources/ViewControllers/FeedViewController.swift:122-136 | a like then an unlike of the same id cannot crash when the count c is present and non-negative; it restores count c, leaves the post not liked and leaves every other post as it was |
| Posts.LikeThenUnlikeRestores | Graygram/Sources/ViewControllers/FeedViewController.swift:122-136 | on a post that was not liked and has a count c >= 0, a like then an unlike gives back the feed exactly |
| Pagination.StartFetch | Graygram/Sources/ViewControllers/FeedViewController.swift:66-78 | no request, and nothing changes, while a fetch is in flight or for a load-more without a cursor; otherwise a refresh requests the fixed first-page URL whatever the cursor, a load-more requests exactly the cursor, and the flag is set with posts and cursor untouched |
| Pagination.ApplyResult | Graygram/Sources/ViewControllers/FeedViewController.swift:80-104 | every completion clears the flag; a success replaces the posts (refresh) or appends the new page after them (load-more) and sets the cursor to the response's next, absent included; a failure or non-object body keeps posts and cursor |
| Pagination.RunEndsIdle | Graygram/Sources/ViewControllers/FeedViewController.swift:78-83 | any number of start-and-complete cycles from an idle state ends idle |
| Pagination.InFlightDropsStarts | Graygram/Sources/ViewControllers/FeedViewController.swift:67 | once a fetch is in flight, any number of further starts, of either kind, request nothing and leave the state unchanged |
| Pagination.RefreshesReplace | Graygram/Sources/ViewControllers/FeedViewController.swift:91-98 | after successive successful refreshes the posts and cursor are exactly the last response's; nothing accumulates |
| Pagination.LoadMoresAppend | Graygram/Sources/ViewControllers/FeedViewController.swift:91-98 | successive successful load-mores, each but the last announcing a next page, give the old posts followed by every page in call order, with the last response's cursor |
| Controller.FeedViewController.constructor | Graygram/Sources/ViewControllers/FeedViewController.swift:16-18 | a new screen has no posts, no cursor and no fetch in flight |
| Controller.FeedViewController.FetchPosts | Graygram/Sources/ViewControllers/FeedViewController.swift:66-78 | the URL returned and the new fields are those of StartFetch on the old fields; a started fetch is recorded as pending with its `more` |
| Controller.FeedViewController.ApplyResponse | Graygram/Sources/ViewControllers/FeedViewController.swift:80-104 | called only for the fetch in flight, with its own `more`; the new fields are those of ApplyResult on the old fields, and nothing is pending afterwards |
| Controller.FeedViewController.PostDidLike | Graygram/Sources/ViewControllers/FeedViewController.swift:118-129 | with no usable postID nothing changes; otherwise posts become Liked(old posts, id); the cursor and flag never change |
| Controller.FeedViewController.PostDidUnlike | Graygram/Sources/ViewControllers/FeedViewController.swift:131-142 | with no usable postID nothing changes; otherwise posts become Unliked(old posts, id); the cursor and flag never change |
| Controller.FeedViewController.FooterHeight | Graygram/Sources/ViewControllers/FeedViewController.swift:201-204 | the footer is 44 high exactly when a cursor is present, and 0 exactly when it is absent |

## Left out

- UIKit view setup and layout (lines 37-59, 155-192): the title label, cell registration, constraints, item size, insets and line spacing. This is platform UI with no logic, and its values are `CGFloat`.
- The scroll-threshold trigger (lines 194-198) is floating-point geometry. A load-more is simply a call of `FetchPosts(true)` that any caller may make at any time.
- The Alamofire request and the `responseJSON` decoding (lines 80, 85-88) are foreign calls. The model takes the response already classified.
- ObjectMapper's `[Post](JSONArray:)` (line 89) is library code. `newPosts` is an input sequence. A missing or malformed `data` array becomes an empty `newPosts`.
- NotificationCenter registration and `userInfo` extraction (lines 51-52, 119, 132) are process-wide event plumbing. Only their outcome is modelled: an `Option<int>` post id.
- The `[weak self]` early return when the screen is gone (line 81) is lifecycle and asynchrony. The model has exactly one completion per started fetch.
- UI side effects are left out: `endRefreshing()`, `reloadData()` and `print(error)` (lines 82, 100, 103, 125, 138).
- The number of items (line 152) is `posts.count`. It is not modelled separately.
- Controller.FeedViewController.PostDidLike: requires the matched post's count to be present and below `Int.max`, because the source force-unwraps it and traps on overflow; the crash itself is not modelled.
- Controller.FeedViewController.PostDidUnlike: requires the matched post's count to be present and above `Int.min`, for the same reason.
- Posts.WithLike: on 32-bit devices Swift's `Int` is 32 bits wide, and the increment at line 122 traps at 2^31 - 1. The model's bounds are the 64-bit ones, so it admits counts that a 32-bit build would crash on.
