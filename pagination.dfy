/** Cursor-paginated listings of a remote API, seen as a deterministic oracle.

    A listing endpoint is asked for one page at a time: the first request
    carries no page token, every later request carries the token of the
    previous response, and the walk ends when a response's token is falsy
    (absent or the empty string).  A request whose `execute()` raises
    is modelled by the endpoint answering `None`; nothing in the program
    catches that exception, so it ends the whole walk with no result. */
module Pagination {

  datatype Option<+T> = None | Some(value: T)

  /** The `pageToken` argument of one request; `None` on the first request. */
  type Cursor = Option<string>

  /** One response: its `items` and its `nextPageToken`, if any. */
  datatype Page<+T> = Page(items: seq<T>, nextPageToken: Option<string>)

  /** A listing endpoint: for a resource key (a video id or a parent comment
      id) and a page token, the response, or `None` when the request raised. */
  type Endpoint<T> = (string, Cursor) -> Option<Page<T>>

  /** What a whole walk produces: its result, or the failure of one request. */
  datatype Outcome<+T> = Ok(value: T) | RequestFailed

  /** Python truthiness of the token: the loop stops on an absent token and
      on the empty string alike. */
  predicate HasMore(token: Option<string>) {
    token.Some? && token.value != ""
  }

  /** The walk from `cursor` ends (by a falsy token or by a failed request)
      within `n` further requests after the first.  The program itself has
      no such bound; this is the assumption that the server's cursor chain
      is finite. */
  predicate EndsWithin<T>(ep: Endpoint<T>, key: string, cursor: Cursor, n: nat)
    decreases n
  {
    match ep(key, cursor)
    case None => true
    case Some(page) =>
      !HasMore(page.nextPageToken) || (n > 0 && EndsWithin(ep, key, page.nextPageToken, n - 1))
  }

  /** Concatenation of two outcomes; a failure on either side is the result. */
  function Concat<T>(a: Outcome<seq<T>>, b: Outcome<seq<T>>): Outcome<seq<T>> {
    match a
    case RequestFailed => RequestFailed
    case Ok(xs) =>
      match b
      case RequestFailed => RequestFailed
      case Ok(ys) => Ok(xs + ys)
  }

  lemma ConcatLeftIdentity<T>(a: Outcome<seq<T>>)
    ensures Concat(Ok([]), a) == a
  {
    if a.Ok? {
      assert [] + a.value == a.value;
    }
  }

  lemma ConcatRightIdentity<T>(a: Outcome<seq<T>>)
    ensures Concat(a, Ok([])) == a
  {
    if a.Ok? {
      assert a.value + [] == a.value;
    }
  }

  lemma ConcatAssociative<T>(a: Outcome<seq<T>>, b: Outcome<seq<T>>, c: Outcome<seq<T>>)
    ensures Concat(Concat(a, b), c) == Concat(a, Concat(b, c))
  {
    if a.Ok? && b.Ok? && c.Ok? {
      assert (a.value + b.value) + c.value == a.value + (b.value + c.value);
    }
  }

  /** Every item of every page fetched from `cursor` on, page by page. */
  function Collect<T>(ep: Endpoint<T>, key: string, cursor: Cursor, n: nat): Outcome<seq<T>>
    requires EndsWithin(ep, key, cursor, n)
    decreases n
  {
    match ep(key, cursor)
    case None => RequestFailed
    case Some(page) =>
      if HasMore(page.nextPageToken) then
        Concat(Ok(page.items), Collect(ep, key, page.nextPageToken, n - 1))
      else
        Ok(page.items)
  }

  /** The page tokens the walk from `cursor` sends, in order, the failed
      request (if any) included. */
  function Requests<T>(ep: Endpoint<T>, key: string, cursor: Cursor, n: nat): seq<Cursor>
    requires EndsWithin(ep, key, cursor, n)
    decreases n
  {
    [cursor] +
      match ep(key, cursor)
      case None => []
      case Some(page) =>
        if HasMore(page.nextPageToken) then Requests(ep, key, page.nextPageToken, n - 1) else []
  }

  /** The request with token `c` succeeded and its response hands `c'` on. */
  predicate Continues<T>(ep: Endpoint<T>, key: string, c: Cursor, c': Cursor) {
    ep(key, c).Some? && HasMore(ep(key, c).value.nextPageToken) && c' == ep(key, c).value.nextPageToken
  }

  /** The request with token `c` is the last one: it raised, or its token is falsy. */
  predicate Stops<T>(ep: Endpoint<T>, key: string, c: Cursor) {
    ep(key, c).None? || !HasMore(ep(key, c).value.nextPageToken)
  }

  /** The request protocol, stated without recursion: start at `cursor`,
      pass each response's token to the next request, and stop exactly at
      the first response that fails or has a falsy token. */
  predicate IsRequestTrace<T>(ep: Endpoint<T>, key: string, cursor: Cursor, cs: seq<Cursor>) {
    && |cs| > 0
    && cs[0] == cursor
    && (forall i :: 0 <= i < |cs| - 1 ==> Continues(ep, key, cs[i], cs[i + 1]))
    && Stops(ep, key, cs[|cs| - 1])
  }

  /** The items of the response to `c`, none when it failed. */
  function ItemsAt<T>(ep: Endpoint<T>, key: string, c: Cursor): seq<T> {
    match ep(key, c)
    case None => []
    case Some(page) => page.items
  }

  /** The items served to the requests `cs`, request by request. */
  function Served<T>(ep: Endpoint<T>, key: string, cs: seq<Cursor>): seq<T> {
    if cs == [] then [] else ItemsAt(ep, key, cs[0]) + Served(ep, key, cs[1..])
  }

  lemma {:induction false} RequestsAreATrace<T>(ep: Endpoint<T>, key: string, cursor: Cursor, n: nat)
    requires EndsWithin(ep, key, cursor, n)
    ensures IsRequestTrace(ep, key, cursor, Requests(ep, key, cursor, n))
    decreases n
  {
    var cs := Requests(ep, key, cursor, n);
    if !Stops(ep, key, cursor) {
      var next := ep(key, cursor).value.nextPageToken;
      RequestsAreATrace(ep, key, next, n - 1);
      var rest := Requests(ep, key, next, n - 1);
      assert cs == [cursor] + rest;
      forall i | 0 <= i < |cs| - 1
        ensures Continues(ep, key, cs[i], cs[i + 1])
      {
        if i > 0 {
          assert cs[i] == rest[i - 1] && cs[i + 1] == rest[i];
        }
      }
    }
  }

  lemma {:induction false} TraceIsRequests<T>(ep: Endpoint<T>, key: string, cursor: Cursor, n: nat, cs: seq<Cursor>)
    requires EndsWithin(ep, key, cursor, n)
    requires IsRequestTrace(ep, key, cursor, cs)
    ensures cs == Requests(ep, key, cursor, n)
    decreases n
  {
    if Stops(ep, key, cursor) {
      if |cs| > 1 {
        assert false;
      }
    } else {
      var next := ep(key, cursor).value.nextPageToken;
      assert |cs| > 1;
      assert Continues(ep, key, cs[0], cs[1]);
      var rest := cs[1..];
      forall i | 0 <= i < |rest| - 1
        ensures Continues(ep, key, rest[i], rest[i + 1])
      {
        assert rest[i] == cs[i + 1] && rest[i + 1] == cs[i + 2];
      }
      TraceIsRequests(ep, key, next, n - 1, rest);
      assert cs == [cs[0]] + rest;
    }
  }

  /** The requests the walk sends are exactly the protocol's trace: the
      first carries `cursor`, each later one the previous response's token,
      and the walk stops at the first failed or token-less response, not
      earlier (an empty page with a token goes on) and not later. */
  lemma RequestsCharacterised<T>(ep: Endpoint<T>, key: string, cursor: Cursor, n: nat, cs: seq<Cursor>)
    requires EndsWithin(ep, key, cursor, n)
    ensures Requests(ep, key, cursor, n) == cs <==> IsRequestTrace(ep, key, cursor, cs)
  {
    RequestsAreATrace(ep, key, cursor, n);
    if IsRequestTrace(ep, key, cursor, cs) {
      TraceIsRequests(ep, key, cursor, n, cs);
    }
  }

  /** The walk's result is every item served to its requests, in request
      order and then in item order, with nothing dropped or reordered; it
      fails exactly when its last request failed. */
  lemma {:induction false} CollectIsServed<T>(ep: Endpoint<T>, key: string, cursor: Cursor, n: nat)
    requires EndsWithin(ep, key, cursor, n)
    ensures var cs := Requests(ep, key, cursor, n);
      && |cs| > 0
      && (Collect(ep, key, cursor, n).RequestFailed? <==> ep(key, cs[|cs| - 1]).None?)
      && (Collect(ep, key, cursor, n).Ok? ==> Collect(ep, key, cursor, n).value == Served(ep, key, cs))
    decreases n
  {
    var cs := Requests(ep, key, cursor, n);
    match ep(key, cursor)
    case None =>
      assert cs == [cursor];
    case Some(page) =>
      if HasMore(page.nextPageToken) {
        var next := page.nextPageToken;
        CollectIsServed(ep, key, next, n - 1);
        var rest := Requests(ep, key, next, n - 1);
        assert cs == [cursor] + rest;
        assert cs[1..] == rest;
        assert cs[|cs| - 1] == rest[|rest| - 1];
      } else {
        assert cs == [cursor];
        assert Served(ep, key, cs) == page.items + Served(ep, key, []);
      }
  }

  /** A response whose token is absent or the empty string is the last
      one: its items end the walk and no further request is sent. */
  lemma FalsyTokenStops<T>(ep: Endpoint<T>, key: string, cursor: Cursor, n: nat, items: seq<T>)
    requires ep(key, cursor) == Some(Page(items, None)) || ep(key, cursor) == Some(Page(items, Some("")))
    ensures EndsWithin(ep, key, cursor, n)
    ensures Requests(ep, key, cursor, n) == [cursor]
    ensures Collect(ep, key, cursor, n) == Ok(items)
  {
  }

  /** A response with no items but a non-empty token does not end the walk:
      the next request carries that token. */
  lemma EmptyPageContinues<T>(ep: Endpoint<T>, key: string, cursor: Cursor, n: nat, token: string)
    requires EndsWithin(ep, key, cursor, n)
    requires ep(key, cursor) == Some(Page([], Some(token))) && token != ""
    ensures |Requests(ep, key, cursor, n)| >= 2 && Requests(ep, key, cursor, n)[1] == Some(token)
    ensures Collect(ep, key, cursor, n) == Collect(ep, key, Some(token), n - 1)
  {
    ConcatLeftIdentity(Collect(ep, key, Some(token), n - 1));
  }

  lemma {:induction false} EndsWithinMonotone<T>(ep: Endpoint<T>, key: string, cursor: Cursor, n: nat, n': nat)
    requires EndsWithin(ep, key, cursor, n) && n <= n'
    ensures EndsWithin(ep, key, cursor, n')
    decreases n
  {
    if !Stops(ep, key, cursor) {
      EndsWithinMonotone(ep, key, ep(key, cursor).value.nextPageToken, n - 1, n' - 1);
    }
  }

  /** The bound is only a proof device: any two bounds under which the walk
      ends give the same result and the same requests. */
  lemma {:induction false} FuelIrrelevant<T>(ep: Endpoint<T>, key: string, cursor: Cursor, n: nat, n': nat)
    requires EndsWithin(ep, key, cursor, n) && EndsWithin(ep, key, cursor, n')
    ensures Collect(ep, key, cursor, n) == Collect(ep, key, cursor, n')
    ensures Requests(ep, key, cursor, n) == Requests(ep, key, cursor, n')
    decreases n
  {
    if !Stops(ep, key, cursor) {
      FuelIrrelevant(ep, key, ep(key, cursor).value.nextPageToken, n - 1, n' - 1);
    }
  }

  /** A successful walk begins with the items of its first page. */
  lemma CollectBeginsWithFirstPage<T>(ep: Endpoint<T>, key: string, cursor: Cursor, n: nat, page: Page<T>)
    requires EndsWithin(ep, key, cursor, n)
    requires ep(key, cursor) == Some(page)
    requires Collect(ep, key, cursor, n).Ok?
    ensures page.items <= Collect(ep, key, cursor, n).value
  {
  }

  /** One step of a walk that goes on: the page's items join those already
      fetched, its request joins those already sent, and the walk resumes
      from the page's token. */
  lemma WalkContinues<T>(ep: Endpoint<T>, key: string, cursor: Cursor, n: nat, page: Page<T>,
                         fetched: seq<T>, sent: seq<Cursor>)
    requires EndsWithin(ep, key, cursor, n)
    requires ep(key, cursor) == Some(page) && HasMore(page.nextPageToken)
    ensures n > 0 && EndsWithin(ep, key, page.nextPageToken, n - 1)
    ensures Concat(Ok(fetched), Collect(ep, key, cursor, n))
            == Concat(Ok(fetched + page.items), Collect(ep, key, page.nextPageToken, n - 1))
    ensures sent + Requests(ep, key, cursor, n)
            == (sent + [cursor]) + Requests(ep, key, page.nextPageToken, n - 1)
  {
    ConcatAssociative(Ok(fetched), Ok(page.items), Collect(ep, key, page.nextPageToken, n - 1));
  }

  /** The last step of a walk: a page with a falsy token. */
  lemma WalkStops<T>(ep: Endpoint<T>, key: string, cursor: Cursor, n: nat, page: Page<T>,
                     fetched: seq<T>, sent: seq<Cursor>)
    requires EndsWithin(ep, key, cursor, n)
    requires ep(key, cursor) == Some(page) && !HasMore(page.nextPageToken)
    ensures Concat(Ok(fetched), Collect(ep, key, cursor, n)) == Ok(fetched + page.items)
    ensures sent + Requests(ep, key, cursor, n) == sent + [cursor]
  {
  }

  /** A step whose request raised ends the walk with a failure. */
  lemma WalkFails<T>(ep: Endpoint<T>, key: string, cursor: Cursor, n: nat, fetched: seq<T>, sent: seq<Cursor>)
    requires EndsWithin(ep, key, cursor, n)
    requires ep(key, cursor).None?
    ensures Concat(Ok(fetched), Collect(ep, key, cursor, n)) == RequestFailed
    ensures sent + Requests(ep, key, cursor, n) == sent + [cursor]
  {
  }

  /** The first request of a walk is the one carrying its own cursor. */
  lemma RequestsBeginWithCursor<T>(ep: Endpoint<T>, key: string, cursor: Cursor, n: nat, sent: seq<Cursor>)
    requires EndsWithin(ep, key, cursor, n)
    ensures sent + [cursor] <= sent + Requests(ep, key, cursor, n)
  {
  }
}
