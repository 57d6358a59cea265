/** The comment fetcher: every top-level comment of a video, each followed
    by all of its replies, as one flat list of display texts.

    The API client is the `Api` value: two listing endpoints, one for
    comment threads (keyed by video id) and one for comments (keyed by
    parent comment id), each answering a page per page token. */
module YoutubeComment {
  import opened Pagination

  /** A comment resource: its id and its `snippet.textDisplay`. */
  datatype Comment = Comment(id: string, textDisplay: string)

  /** A comment-thread resource: its `snippet.topLevelComment`, and whether
      the item carries a `replies` key. */
  datatype ThreadItem = ThreadItem(topLevelComment: Comment, hasReplies: bool)

  /** The API client: the comment-thread listing of a video and the
      comment listing of a parent comment. */
  datatype Api = Api(commentThreads: Endpoint<ThreadItem>, comments: Endpoint<Comment>)

  /** The display texts of `cs`, in order. */
  function Texts(cs: seq<Comment>): seq<string> {
    seq(|cs|, i requires 0 <= i < |cs| => cs[i].textDisplay)
  }

  /** Every reply listing ends within `n` requests after the first. */
  ghost predicate RepliesEnd(api: Api, n: nat) {
    forall parentId :: EndsWithin(api.comments, parentId, None, n)
  }

  /** Specification of `get_comment_replies`: the texts of every reply on
      every page of the parent's reply listing, or the failure. */
  function RepliesOf(api: Api, parentId: string, n: nat): Outcome<seq<string>>
    requires EndsWithin(api.comments, parentId, None, n)
  {
    match Collect(api.comments, parentId, None, n)
    case RequestFailed => RequestFailed
    case Ok(cs) => Ok(Texts(cs))
  }

  /** The replies spliced in after a thread's top-level comment: those of its
      top-level comment's id when the item has a `replies` key, else none. */
  function ThreadReplies(api: Api, item: ThreadItem, n: nat): Outcome<seq<string>>
    requires RepliesEnd(api, n)
  {
    if item.hasReplies then RepliesOf(api, item.topLevelComment.id, n) else Ok([])
  }

  /** What one thread item contributes: its top-level text, then its replies. */
  function Expand(api: Api, item: ThreadItem, n: nat): Outcome<seq<string>>
    requires RepliesEnd(api, n)
  {
    Concat(Ok([item.topLevelComment.textDisplay]), ThreadReplies(api, item, n))
  }

  /** The flat, depth-first list of the thread items `items`. */
  function Flatten(api: Api, items: seq<ThreadItem>, n: nat): Outcome<seq<string>>
    requires RepliesEnd(api, n)
    decreases |items|
  {
    if items == [] then Ok([])
    else Concat(Flatten(api, items[..|items| - 1], n), Expand(api, items[|items| - 1], n))
  }

  /** Specification of `get_video_comments`: every thread item of every
      page of the video's thread listing, flattened. */
  function VideoComments(api: Api, videoId: string, m: nat, n: nat): Outcome<seq<string>>
    requires EndsWithin(api.commentThreads, videoId, None, m)
    requires RepliesEnd(api, n)
  {
    match Collect(api.commentThreads, videoId, None, m)
    case RequestFailed => RequestFailed
    case Ok(items) => Flatten(api, items, n)
  }

  /** Number of entries a thread item contributes: one, plus its replies. */
  function ThreadSize(api: Api, item: ThreadItem, n: nat): nat
    requires RepliesEnd(api, n)
  {
    1 + match ThreadReplies(api, item, n)
        case RequestFailed => 0
        case Ok(rs) => |rs|
  }

  function Size(api: Api, items: seq<ThreadItem>, n: nat): nat
    requires RepliesEnd(api, n)
    decreases |items|
  {
    if items == [] then 0 else Size(api, items[..|items| - 1], n) + ThreadSize(api, items[|items| - 1], n)
  }

  /** `get_comment_replies`: one request per page, the first without a
      token and each later one with the previous response's token; every
      item's text is appended as it arrives. */
  method GetCommentReplies(api: Api, parentId: string, ghost n: nat)
    returns (replies: Outcome<seq<string>>, ghost sent: seq<Cursor>)
    requires EndsWithin(api.comments, parentId, None, n)
    ensures replies == RepliesOf(api, parentId, n)
    ensures sent == Requests(api.comments, parentId, None, n)
  {
    var acc: seq<string> := [];
    var nextPageToken: Cursor := None;
    ghost var k := n;
    ghost var fetched: seq<Comment> := [];
    sent := [];
    ConcatLeftIdentity(Collect(api.comments, parentId, None, n));
    while true
      invariant EndsWithin(api.comments, parentId, nextPageToken, k)
      invariant Collect(api.comments, parentId, None, n)
                == Concat(Ok(fetched), Collect(api.comments, parentId, nextPageToken, k))
      invariant Requests(api.comments, parentId, None, n)
                == sent + Requests(api.comments, parentId, nextPageToken, k)
      invariant acc == Texts(fetched)
      decreases k
    {
      var response := api.comments(parentId, nextPageToken);
      if response.None? {
        // the request raised: the exception leaves the function
        WalkFails(api.comments, parentId, nextPageToken, k, fetched, sent);
        sent := sent + [nextPageToken];
        replies := RequestFailed;
        return;
      }
      var page := response.value;
      for i := 0 to |page.items|
        invariant acc == Texts(fetched + page.items[..i])
      {
        assert fetched + page.items[..i + 1] == (fetched + page.items[..i]) + [page.items[i]];
        acc := acc + [page.items[i].textDisplay];
      }
      assert page.items[..|page.items|] == page.items;
      if !HasMore(page.nextPageToken) {
        WalkStops(api.comments, parentId, nextPageToken, k, page, fetched, sent);
      } else {
        WalkContinues(api.comments, parentId, nextPageToken, k, page, fetched, sent);
      }
      sent := sent + [nextPageToken];
      fetched := fetched + page.items;
      nextPageToken := page.nextPageToken;
      if !HasMore(nextPageToken) {
        break;
      }
      k := k - 1;
    }
    replies := Ok(acc);
  }

  /** `get_video_comments`: the same page loop over the video's comment
      threads; each item's top-level text is appended, and when the item has
      a `replies` key the whole reply listing of its top-level comment is
      spliced in straight after it, before the next item. */
  method GetVideoComments(api: Api, videoId: string, ghost m: nat, ghost n: nat)
    returns (comments: Outcome<seq<string>>, ghost sent: seq<Cursor>)
    requires EndsWithin(api.commentThreads, videoId, None, m)
    requires RepliesEnd(api, n)
    ensures comments == VideoComments(api, videoId, m, n)
    ensures sent <= Requests(api.commentThreads, videoId, None, m)
    ensures comments.Ok? ==> sent == Requests(api.commentThreads, videoId, None, m)
  {
    var acc: seq<string> := [];
    var nextPageToken: Cursor := None;
    ghost var k := m;
    ghost var fetched: seq<ThreadItem> := [];
    sent := [];
    ConcatLeftIdentity(Collect(api.commentThreads, videoId, None, m));
    while true
      invariant EndsWithin(api.commentThreads, videoId, nextPageToken, k)
      invariant Collect(api.commentThreads, videoId, None, m)
                == Concat(Ok(fetched), Collect(api.commentThreads, videoId, nextPageToken, k))
      invariant Requests(api.commentThreads, videoId, None, m)
                == sent + Requests(api.commentThreads, videoId, nextPageToken, k)
      invariant Flatten(api, fetched, n) == Ok(acc)
      decreases k
    {
      RequestsBeginWithCursor(api.commentThreads, videoId, nextPageToken, k, sent);
      var response := api.commentThreads(videoId, nextPageToken);
      if response.None? {
        // the request raised: the exception leaves the function
        WalkFails(api.commentThreads, videoId, nextPageToken, k, fetched, sent);
        sent := sent + [nextPageToken];
        comments := RequestFailed;
        return;
      }
      var page := response.value;
      assert fetched + page.items[..0] == fetched;
      for i := 0 to |page.items|
        invariant Flatten(api, fetched + page.items[..i], n) == Ok(acc)
      {
        var item := page.items[i];
        ghost var done := fetched + page.items[..i + 1];
        assert done == (fetched + page.items[..i]) + [item];
        acc := acc + [item.topLevelComment.textDisplay];
        if item.hasReplies {
          var replies;
          ghost var replyRequests;
          replies, replyRequests := GetCommentReplies(api, item.topLevelComment.id, n);
          if replies.RequestFailed? {
            // the reply request raised: the exception leaves this function too
            comments := RequestFailed;
            FlattenStepFails(api, fetched + page.items[..i], item, n);
            ThreadFailureFailsVideo(api, videoId, m, n, nextPageToken, k, fetched, page, i + 1);
            sent := sent + [nextPageToken];
            return;
          }
          FlattenStep(api, fetched + page.items[..i], item, n);
          acc := acc + replies.value;
        } else {
          FlattenStep(api, fetched + page.items[..i], item, n);
          assert acc + [] == acc;
        }
      }
      assert page.items[..|page.items|] == page.items;
      if !HasMore(page.nextPageToken) {
        WalkStops(api.commentThreads, videoId, nextPageToken, k, page, fetched, sent);
      } else {
        WalkContinues(api.commentThreads, videoId, nextPageToken, k, page, fetched, sent);
      }
      sent := sent + [nextPageToken];
      fetched := fetched + page.items;
      nextPageToken := page.nextPageToken;
      if !HasMore(nextPageToken) {
        break;
      }
      k := k - 1;
    }
    comments := Ok(acc);
  }

  /** A thread item whose replies fail, on any page, fails the whole
      video listing: no partial list is returned. */
  lemma ThreadFailureFailsVideo(api: Api, videoId: string, m: nat, n: nat, cursor: Cursor, k: nat,
                                fetched: seq<ThreadItem>, page: Page<ThreadItem>, j: nat)
    requires EndsWithin(api.commentThreads, videoId, None, m) && RepliesEnd(api, n)
    requires EndsWithin(api.commentThreads, videoId, cursor, k)
    requires Collect(api.commentThreads, videoId, None, m)
             == Concat(Ok(fetched), Collect(api.commentThreads, videoId, cursor, k))
    requires api.commentThreads(videoId, cursor) == Some(page)
    requires j <= |page.items| && Flatten(api, fetched + page.items[..j], n).RequestFailed?
    ensures VideoComments(api, videoId, m, n) == RequestFailed
  {
    var all := Collect(api.commentThreads, videoId, None, m);
    if all.Ok? {
      CollectBeginsWithFirstPage(api.commentThreads, videoId, cursor, k, page);
      var done := fetched + page.items[..j];
      assert all.value[..|done|] == done;
      FlattenPrefixFails(api, all.value, |done|, n);
    }
  }

  /** Flattening distributes over concatenation of thread lists. */
  lemma {:induction false} FlattenAppend(api: Api, a: seq<ThreadItem>, b: seq<ThreadItem>, n: nat)
    requires RepliesEnd(api, n)
    ensures Flatten(api, a + b, n) == Concat(Flatten(api, a, n), Flatten(api, b, n))
    decreases |b|
  {
    if b == [] {
      assert a + b == a;
      ConcatRightIdentity(Flatten(api, a, n));
    } else {
      var b', x := b[..|b| - 1], b[|b| - 1];
      assert (a + b)[..|a + b| - 1] == a + b' && (a + b)[|a + b| - 1] == x;
      FlattenAppend(api, a, b', n);
      ConcatAssociative(Flatten(api, a, n), Flatten(api, b', n), Expand(api, x, n));
    }
  }

  /** Appending one thread item appends its top-level text and its replies. */
  lemma FlattenStep(api: Api, items: seq<ThreadItem>, item: ThreadItem, n: nat)
    requires RepliesEnd(api, n)
    requires Flatten(api, items, n).Ok? && ThreadReplies(api, item, n).Ok?
    ensures Flatten(api, items + [item], n)
            == Ok(Flatten(api, items, n).value + [item.topLevelComment.textDisplay] + ThreadReplies(api, item, n).value)
  {
    var all := items + [item];
    assert all[..|all| - 1] == items && all[|all| - 1] == item;
    var out, top, rs := Flatten(api, items, n).value, item.topLevelComment.textDisplay, ThreadReplies(api, item, n).value;
    assert out + ([top] + rs) == out + [top] + rs;
  }

  /** Appending a thread item whose replies fail fails the list. */
  lemma FlattenStepFails(api: Api, items: seq<ThreadItem>, item: ThreadItem, n: nat)
    requires RepliesEnd(api, n)
    requires ThreadReplies(api, item, n).RequestFailed?
    ensures Flatten(api, items + [item], n).RequestFailed?
  {
  }

  /** A failure among the first `j` thread items fails the whole list. */
  lemma FlattenPrefixFails(api: Api, items: seq<ThreadItem>, j: nat, n: nat)
    requires RepliesEnd(api, n)
    requires j <= |items| && Flatten(api, items[..j], n).RequestFailed?
    ensures Flatten(api, items, n).RequestFailed?
  {
    assert items == items[..j] + items[j..];
    FlattenAppend(api, items[..j], items[j..], n);
  }

  /** The flat list exists exactly when the reply listing of every thread
      item that has a `replies` key succeeds. */
  lemma {:induction false} FlattenOkIff(api: Api, items: seq<ThreadItem>, n: nat)
    requires RepliesEnd(api, n)
    ensures Flatten(api, items, n).Ok? <==> forall j :: 0 <= j < |items| ==> ThreadReplies(api, items[j], n).Ok?
    decreases |items|
  {
    if items != [] {
      var p := items[..|items| - 1];
      FlattenOkIff(api, p, n);
      assert forall j :: 0 <= j < |p| ==> p[j] == items[j];
    }
  }

  /** The output has one entry per thread item plus one per fetched reply. */
  lemma {:induction false} FlattenLength(api: Api, items: seq<ThreadItem>, n: nat)
    requires RepliesEnd(api, n)
    requires Flatten(api, items, n).Ok?
    ensures |Flatten(api, items, n).value| == Size(api, items, n)
    decreases |items|
  {
    if items != [] {
      FlattenLength(api, items[..|items| - 1], n);
    }
  }

  /** Depth-first order: thread item `j` occupies one contiguous block,
      starting after the blocks of the items before it, made of its
      top-level text followed by all of its replies in order. */
  lemma FlattenBlock(api: Api, items: seq<ThreadItem>, n: nat, j: nat)
    requires RepliesEnd(api, n)
    requires Flatten(api, items, n).Ok? && j < |items|
    ensures ThreadReplies(api, items[j], n).Ok?
    ensures var out := Flatten(api, items, n).value;
            var s := Size(api, items[..j], n);
            var rs := ThreadReplies(api, items[j], n).value;
            && s + 1 + |rs| <= |out|
            && out[s] == items[j].topLevelComment.textDisplay
            && out[s + 1..s + 1 + |rs|] == rs
  {
    var p, x, q := items[..j], items[j], items[j + 1..];
    assert items == (p + [x]) + q;
    assert (p + [x])[..|p|] == p;
    FlattenAppend(api, p + [x], q, n);
    FlattenLength(api, p, n);
  }
}
