# YouTube comment fetcher — Dafny model

This project models the two functions of `youtube_Comment.py` that hold the
program's logic:

- `get_comment_replies(youtube, parent_id)` pages through the replies of one
  comment. Each request asks for one page. The text of every item is appended
  to a list. The response's `nextPageToken` is passed to the next request, and
  the loop stops when that token is falsy.
- `get_video_comments(youtube, video_id)` pages through the comment threads of
  a video in the same way. For each thread item it appends the top-level
  comment's text. When the item has a `replies` key, it runs
  `get_comment_replies` for the top-level comment's id and splices the
  replies in straight after their parent.

The API client is an `Api` value made of two deterministic endpoints:
`commentThreads` (keyed by video id) and `comments` (keyed by parent comment
id). Each maps a key and a page token (`None` on the first request) to a
`Page(items, nextPageToken)`. An endpoint answers `None` when the request's
`execute()` raised. Nothing in the program catches that exception, so it ends
the whole call without a result. The model shows this as `RequestFailed`.

Files:

- `pagination.dfy`, module `Pagination`: the generic page walk. `Collect`
  gives every item of every page, or the failure. `Requests` gives the page
  tokens sent, in order. `IsRequestTrace` states the request protocol without
  recursion. `Served` is the page-by-page concatenation of the items served.
- `youtube_comment.dfy`, module `YoutubeComment`: the data model (`Comment`,
  `ThreadItem`, `Api`), the specification functions `RepliesOf`, `Flatten`
  and `VideoComments`, and the two loops as methods `GetCommentReplies` and
  `GetVideoComments`. Each method is proved equal to its specification
  function. Both methods also return, as a ghost value, the list of page tokens
  they sent to their own endpoint.

The program has no bound on the number of pages. The model assumes that the
server's cursor chain is finite: `EndsWithin(ep, key, cursor, n)` says that the
walk ends within `n` further requests. `FuelIrrelevant` shows that the bound
does not change what the walk returns or sends.

Descriptions of this program also mention timestamps, a "comments disabled"
check, classification of errors, batches of videos, URL parsing and file-name
sanitising. None of these is in `youtube_Comment.py`, so the model follows the
code and leaves them out.

## Model

| member | source | states |
|---|---|---|
| `Pagination.RequestsCharacterised` | youtube_Comment.py:7-24 | The tokens sent are exactly the protocol trace, in both directions. The first request carries no token. Each later request carries the token of the previous response. The walk stops at the first response that raised or whose token is falsy, and not before. |
| `Pagination.CollectIsServed` | youtube_Comment.py:9-26 | A walk's result is every item of every page served to its requests, in page order and then item order. Nothing is dropped or reordered. The walk fails exactly when its last request raised. |
| `Pagination.FalsyTokenStops` | youtube_Comment.py:21-24 | A response whose `nextPageToken` is absent or the empty string is the last one. No further request is sent, and its items end the result. |
| `Pagination.EmptyPageContinues` | youtube_Comment.py:17-24 | A page with no items but a non-empty token does not end the walk. The next request carries that token. |
| `Pagination.FuelIrrelevant` | youtube_Comment.py:9-24 | Any two bounds under which the walk ends give the same items and the same requests. |
| `Pagination.WalkContinues` | youtube_Comment.py:17-24 | One iteration with a truthy token: the page's items are appended, its request is logged, and the walk resumes from the page's token. |
| `YoutubeComment.GetCommentReplies` | youtube_Comment.py:5-26 | The returned list equals the texts of all reply items of all pages of the parent's listing, or the failure. The tokens sent equal `Requests` from no token. |
| `YoutubeComment.GetVideoComments` | youtube_Comment.py:29-55 | The result equals `Flatten` of all thread items of all pages, or the failure of any thread or reply request. The thread-level tokens sent are a prefix of `Requests` from no token, and all of it on success, so reply paging never disturbs the thread cursor. |
| `YoutubeComment.FlattenStep` | youtube_Comment.py:41-48 | Handling one more thread item appends its top-level text, then all of its replies, to the entries already built. Nothing earlier changes. |
| `YoutubeComment.FlattenStepFails` | youtube_Comment.py:46-48 | A thread item with a `replies` key whose reply listing fails makes the list fail. |
| `YoutubeComment.ThreadFailureFailsVideo` | youtube_Comment.py:33-53 | A reply failure on any thread page fails the whole video listing. No partial list is returned. |
| `YoutubeComment.FlattenAppend` | youtube_Comment.py:41-48 | Flattening two runs of thread items one after the other is flattening each and concatenating. |
| `YoutubeComment.FlattenPrefixFails` | youtube_Comment.py:41-48 | A failure among the first thread items fails the flattening of the whole list. |
| `YoutubeComment.FlattenOkIff` | youtube_Comment.py:46-47 | The flat list exists exactly when the reply listing of every item with a `replies` key succeeds. Items without the key fetch nothing and cannot fail. |
| `YoutubeComment.FlattenLength` | youtube_Comment.py:41-48 | The flat list has, for each thread item, one entry plus one per reply fetched for it. |
| `YoutubeComment.FlattenBlock` | youtube_Comment.py:41-48 | Depth-first order. Thread item `j` fills one contiguous block that starts after the blocks of all earlier items. The block is its top-level text followed by its replies in order. The replies are those of its top-level comment's id when it has a `replies` key, and none otherwise. |

## Left out

- `main` (argument parsing, building the client with an API key, writing the output file, the final `print`) is I/O glue and is not modelled.
- The request parameters `part` and `maxResults=100` are options for the server. The code does not enforce them, so they are not modelled; page sizes are whatever the endpoint returns.
- What an exception from `execute()` carries (the HTTP error and its message) is not modelled. A failure is the value `RequestFailed`, and the model only states that it ends the call with no result.
- Responses without `items`, `snippet` or `topLevelComment` would raise `KeyError` in the source. The model's pages and items always have these fields.
- Termination: the source loops for ever if the server keeps returning tokens. The methods require a finite cursor chain (`EndsWithin`). For replies this is `RepliesEnd`, which bounds every reply listing, not only those the video's threads reach. This is an assumption about the server, not a property of the code.
- YoutubeComment.GetVideoComments: its ghost log covers the thread-listing requests only. The exact interleaving in time of thread and reply requests is not recorded. The result is stated against "all thread pages, then flatten"; the two agree because the endpoints are deterministic and a failure carries no detail.
