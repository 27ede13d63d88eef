/** Step 1 of `run_bot` (main.py): page through the community's tweets with a
    record cap, an attempt counter and a cursor hand-off. The response to each
    page request is scripted: `respond(n)` is what the `n`-th request (from 0)
    gets back. */
module Scraper {
  import opened Common

  /** MAX_TWEETS. */
  const MaxTweets := 50
  /** max_scraping_attempts. */
  const MaxScrapingAttempts := 3

  /** The `author` entry of a tweet: absent, a JSON object (whose `userName`
      may be absent or null), or any other value, on which `.get` raises. */
  datatype Author = NoAuthor | AuthorObject(userName: Option<string>) | AuthorNotObject

  /** An engagement counter: the key is absent, or present with a value (null
      is `None`). */
  datatype Counter = Absent | Present(value: Option<int>)

  /** One element of the page's `tweets` list; anything but a JSON object
      makes `.get` raise. */
  datatype RawTweet =
    | TweetObject(author: Author, createdAt: Option<string>, text: Option<string>,
                  likeCount: Counter, retweetCount: Counter, replyCount: Counter,
                  viewCount: Counter, url: Option<string>)
    | NotObject

  /** One entry of all_tweets_data. */
  datatype TweetRecord = TweetRecord(username: Option<string>, createdAt: Option<string>, text: Option<string>,
                                     likeCount: Option<int>, retweetCount: Option<int>, replyCount: Option<int>,
                                     viewCount: Option<int>, tweetUrl: Option<string>)

  /** What one GET of the tweets endpoint yields:
      - a JSON object whose `tweets` list may be empty (an absent or null list
        is the empty one), with its `next_cursor` and the truth of `has_next`;
      - an HTTP error status raised by `raise_for_status`;
      - any other exception (connection failure, a body that is not JSON). */
  datatype Response =
    | Page(tweets: seq<RawTweet>, nextCursor: Option<string>, hasNext: bool)
    | HttpError(status: int)
    | Failed

  /** Whether mapping this tweet into a record goes through without raising. */
  predicate Mappable(t: RawTweet)
  {
    t.TweetObject? && !t.author.AuthorNotObject?
  }

  function CounterValue(c: Counter): Option<int>
  {
    match c
    case Absent => Some(0)
    case Present(v) => v
  }

  /** The record built from one tweet: the fields are copied and a missing
      counter becomes 0. */
  function MapTweet(t: RawTweet): (r: TweetRecord)
    requires Mappable(t)
    ensures r.username == (if t.author.AuthorObject? then t.author.userName else None)
    ensures r.createdAt == t.createdAt && r.text == t.text && r.tweetUrl == t.url
    ensures t.likeCount.Absent? ==> r.likeCount == Some(0)
    ensures t.retweetCount.Absent? ==> r.retweetCount == Some(0)
    ensures t.replyCount.Absent? ==> r.replyCount == Some(0)
    ensures t.viewCount.Absent? ==> r.viewCount == Some(0)
    ensures t.likeCount.Present? ==> r.likeCount == t.likeCount.value
    ensures t.retweetCount.Present? ==> r.retweetCount == t.retweetCount.value
    ensures t.replyCount.Present? ==> r.replyCount == t.replyCount.value
    ensures t.viewCount.Present? ==> r.viewCount == t.viewCount.value
  {
    TweetRecord(if t.author.AuthorObject? then t.author.userName else None,
                t.createdAt, t.text,
                CounterValue(t.likeCount), CounterValue(t.retweetCount),
                CounterValue(t.replyCount), CounterValue(t.viewCount), t.url)
  }

  /** The records a page appends: one per tweet, up to the first tweet that
      raises (the records before it are already appended). */
  function Mapped(tweets: seq<RawTweet>): (r: seq<TweetRecord>)
    ensures |r| <= |tweets|
    ensures forall i :: 0 <= i < |r| ==> Mappable(tweets[i]) && r[i] == MapTweet(tweets[i])
    ensures |r| < |tweets| ==> !Mappable(tweets[|r|])
  {
    if tweets == [] || !Mappable(tweets[0]) then []
    else [MapTweet(tweets[0])] + Mapped(tweets[1..])
  }

  /** The `cursor` parameter of a request: only a truthy cursor is sent. */
  function CursorParam(cursor: Option<string>): (param: Option<string>)
    ensures param.None? <==> cursor.None? || cursor.value == ""
    ensures param.Some? ==> param == cursor
  {
    if cursor.Some? && cursor.value != "" then cursor else None
  }

  /** The loop condition of the scrape. */
  predicate Scraping(records: seq<TweetRecord>, attempts: nat)
  {
    |records| < MaxTweets && attempts < MaxScrapingAttempts
  }

  /** The records collected, the actions taken, and whether a 401 ended the
      whole run. */
  datatype Scrape = Scrape(records: seq<TweetRecord>, trace: seq<Action>, authFailed: bool)

  /** Where one pass of the loop leaves the scrape: the records, cursor,
      attempt count and actions after it, whether the loop is left (by
      `break`, or by returning from `run_bot` after a 401), and whether a 401
      ended the whole run. */
  datatype Pass = Pass(records: seq<TweetRecord>, cursor: Option<string>, attempts: nat,
                       trace: seq<Action>, stop: bool, authFailed: bool)

  /** The handling of the response to one request; `sent` holds the actions
      up to and including that request. A pass that lets the loop go on uses
      up an attempt or adds a record. */
  function Handle(response: Response, records: seq<TweetRecord>, cursor: Option<string>,
                  attempts: nat, sent: seq<Action>): (p: Pass)
    ensures p.authFailed ==> p.stop
    ensures !p.stop ==>
      (p.attempts == attempts + 1 && |p.records| >= |records|) || (p.attempts == attempts && |p.records| > |records|)
  {
    match response
    case HttpError(status) =>
      if status == 429 then Pass(records, cursor, attempts + 1, sent + [Notify("Rate Limit")], false, false)
      else if status == 401 then Pass(records, cursor, attempts + 1, sent + [Notify("Auth Error")], true, true)
      else Pass(records, cursor, attempts + 1, sent + [Notify("HTTP Error")], true, false)
    case Failed => Pass(records, cursor, attempts + 1, sent + [Notify("Scraping Error")], false, false)
    case Page(tweets, next, hasNext) =>
      if tweets == [] then Pass(records, cursor, attempts, sent, true, false)
      else if |Mapped(tweets)| < |tweets| then
        Pass(records + Mapped(tweets), cursor, attempts + 1, sent + [Notify("Scraping Error")], false, false)
      else Pass(records + Mapped(tweets), next, attempts, sent, !hasNext, false)
  }

  /** The scrape from request `n` on, with the records, cursor and attempt
      count reached so far, after the actions `done`. */
  function ScrapeFrom(respond: nat -> Response, n: nat, records: seq<TweetRecord>, cursor: Option<string>,
                      attempts: nat, done: seq<Action>): Scrape
    decreases MaxScrapingAttempts - attempts, MaxTweets - |records|
  {
    if !Scraping(records, attempts) then Scrape(records, done, false)
    else
      var p := Handle(respond(n), records, cursor, attempts, done + [GetPage(CursorParam(cursor))]);
      if p.stop then Scrape(p.records, p.trace, p.authFailed)
      else ScrapeFrom(respond, n + 1, p.records, p.cursor, p.attempts, p.trace)
  }

  /** A mappable tweet just after the mapped prefix lies inside it. */
  lemma MappedAt(tweets: seq<RawTweet>, j: nat)
    requires j <= |Mapped(tweets)| && j < |tweets| && Mappable(tweets[j])
    ensures j < |Mapped(tweets)| && Mapped(tweets)[j] == MapTweet(tweets[j])
  {
  }

  /** One more mappable tweet extends the mapped prefix by its record. */
  lemma MappedStep(tweets: seq<RawTweet>, j: nat)
    requires j <= |Mapped(tweets)| && j < |tweets| && Mappable(tweets[j])
    ensures j < |Mapped(tweets)|
    ensures Mapped(tweets)[..j + 1] == Mapped(tweets)[..j] + [MapTweet(tweets[j])]
  {
    MappedAt(tweets, j);
    TakeOneMore(Mapped(tweets), j);
  }

  /** The mapped prefix ends at the end of the page or at its first tweet
      that raises. */
  lemma MappedEnd(tweets: seq<RawTweet>, j: nat)
    requires j <= |Mapped(tweets)| && (j == |tweets| || !Mappable(tweets[j]))
    ensures j == |Mapped(tweets)| && Mapped(tweets)[..j] == Mapped(tweets)
  {
  }

  /** The inner loop over a page: each tweet is mapped and appended in turn,
      until one raises. */
  method AppendPage(records: seq<TweetRecord>, tweets: seq<RawTweet>) returns (got: seq<TweetRecord>, complete: bool)
    ensures got == records + Mapped(tweets)
    ensures complete <==> |Mapped(tweets)| == |tweets|
  {
    got := records;
    var j := 0;
    while j < |tweets| && Mappable(tweets[j])
      invariant j <= |Mapped(tweets)|
      invariant got == records + Mapped(tweets)[..j]
    {
      MappedStep(tweets, j);
      got := got + [MapTweet(tweets[j])];
      j := j + 1;
    }
    MappedEnd(tweets, j);
    complete := j == |tweets|;
  }

  /** One pass of the scraping loop: one request and the handling of its
      response. */
  method ScrapeOnce(respond: nat -> Response, n: nat, records: seq<TweetRecord>, cursor: Option<string>,
                    attempts: nat, trace: seq<Action>)
    returns (records': seq<TweetRecord>, cursor': Option<string>, attempts': nat, trace': seq<Action>,
             authFailed: bool, stop: bool)
    ensures Pass(records', cursor', attempts', trace', stop, authFailed)
         == Handle(respond(n), records, cursor, attempts, trace + [GetPage(CursorParam(cursor))])
  {
    records', cursor', attempts', authFailed, stop := records, cursor, attempts, false, false;
    trace' := trace + [GetPage(CursorParam(cursor))];
    var failed := false;
    match respond(n) {
      case HttpError(status) =>
        attempts' := attempts + 1;
        if status == 429 {
          trace' := trace' + [Notify("Rate Limit")];
        } else if status == 401 {
          trace' := trace' + [Notify("Auth Error")];
          authFailed, stop := true, true;
        } else {
          trace' := trace' + [Notify("HTTP Error")];
          stop := true;
        }
      case Failed =>
        failed := true;
      case Page(tweets, next, hasNext) =>
        if tweets == [] {
          stop := true;
        } else {
          var complete;
          records', complete := AppendPage(records, tweets);
          if !complete {
            failed := true;
          } else {
            cursor' := next;
            stop := !hasNext;
          }
        }
    }
    if failed {
      attempts' := attempts + 1;
      trace' := trace' + [Notify("Scraping Error")];
    }
  }

  /** The scraping loop of `run_bot` (the sleeps are left out). A failure that
      uses up the last attempt leaves the loop through its condition, as the
      `break` after it does. */
  method ScrapeCommunity(respond: nat -> Response) returns (records: seq<TweetRecord>, trace: seq<Action>, authFailed: bool)
    ensures Scrape(records, trace, authFailed) == ScrapeFrom(respond, 0, [], None, 0, [])
  {
    records, trace, authFailed := [], [], false;
    var cursor: Option<string> := None;
    var attempts: nat := 0;
    var n: nat := 0;
    while |records| < MaxTweets && attempts < MaxScrapingAttempts
      invariant ScrapeFrom(respond, 0, [], None, 0, []) == ScrapeFrom(respond, n, records, cursor, attempts, trace)
      invariant !authFailed
      decreases MaxScrapingAttempts - attempts, MaxTweets - |records|
    {
      var stop;
      records, cursor, attempts, trace, authFailed, stop := ScrapeOnce(respond, n, records, cursor, attempts, trace);
      n := n + 1;
      if stop {
        return;
      }
    }
  }

  // ---------------------------------------------------------------------
  // Properties of the scrape
  // ---------------------------------------------------------------------

  predicate IsRequest(a: Action)
  {
    a.GetPage?
  }

  /** The notifications of a failure that is retried. */
  predicate IsRetry(a: Action)
  {
    a == Notify("Rate Limit") || a == Notify("Scraping Error")
  }

  /** The notifications of a failure that ends the scrape at once. */
  predicate EndsScrape(a: Action)
  {
    a == Notify("Auth Error") || a == Notify("HTTP Error")
  }

  /** One pass appends at most one notification to the actions and only
      appends to the records. */
  lemma HandleExtends(response: Response, records: seq<TweetRecord>, cursor: Option<string>,
                      attempts: nat, sent: seq<Action>)
    ensures var p := Handle(response, records, cursor, attempts, sent);
      && sent <= p.trace && |p.trace| <= |sent| + 1 && records <= p.records
      && forall i :: |sent| <= i < |p.trace| ==> p.trace[i].Notify?
  {
  }

  /** One pass issues no request of its own; it notifies a retried failure
      only when it uses up an attempt, and it uses up at most one. */
  lemma HandleCounts(response: Response, records: seq<TweetRecord>, cursor: Option<string>,
                     attempts: nat, sent: seq<Action>)
    ensures var p := Handle(response, records, cursor, attempts, sent);
      && Count(p.trace, IsRequest) == Count(sent, IsRequest)
      && Count(p.trace, IsRetry) + attempts <= Count(sent, IsRetry) + p.attempts
      && p.attempts <= attempts + 1
  {
    var p := Handle(response, records, cursor, attempts, sent);
    var extra := p.trace[|sent|..];
    assert p.trace == sent + extra;
    CountAppend(sent, extra, IsRequest);
    CountAppend(sent, extra, IsRetry);
    if extra == [] {
      CountNone(extra, IsRequest);
      CountNone(extra, IsRetry);
    } else {
      assert extra == [extra[0]];
      CountOne(extra[0], IsRequest);
      CountOne(extra[0], IsRetry);
    }
  }

  /** Only a pass that leaves the loop notifies an error that ends the scrape. */
  lemma HandleEnds(response: Response, records: seq<TweetRecord>, cursor: Option<string>,
                   attempts: nat, sent: seq<Action>)
    ensures var p := Handle(response, records, cursor, attempts, sent);
      !p.stop ==> forall i :: |sent| <= i < |p.trace| ==> !EndsScrape(p.trace[i])
  {
  }

  /** After a request, a pass ends on "Auth Error" exactly when it reports a 401. */
  lemma HandleAuthLast(response: Response, records: seq<TweetRecord>, cursor: Option<string>,
                       attempts: nat, sent: seq<Action>)
    requires sent != [] && sent[|sent| - 1].GetPage?
    ensures var p := Handle(response, records, cursor, attempts, sent);
      p.trace != [] && (p.authFailed <==> p.trace[|p.trace| - 1] == Notify("Auth Error"))
  {
  }

  /** A pass adds at most the tweets of its page to the records. */
  lemma HandleRecords(response: Response, records: seq<TweetRecord>, cursor: Option<string>,
                      attempts: nat, sent: seq<Action>)
    ensures |Handle(response, records, cursor, attempts, sent).records|
         <= |records| + (if response.Page? then |response.tweets| else 0)
  {
  }

  /** How a pass ends the scrape, right after its request:
      - an empty page ends it with nothing added;
      - a whole page without has_next ends it after appending the page;
      - a 401 notifies "Auth Error" and abandons the run;
      - any other status but 429 notifies "HTTP Error". */
  lemma ScrapeStops(respond: nat -> Response, n: nat, records: seq<TweetRecord>, cursor: Option<string>,
                    attempts: nat, done: seq<Action>)
    requires Scraping(records, attempts)
    ensures var sent, r := done + [GetPage(CursorParam(cursor))], ScrapeFrom(respond, n, records, cursor, attempts, done);
      match respond(n)
      case Page(tweets, _, hasNext) =>
        && (tweets == [] ==> r == Scrape(records, sent, false))
        && (tweets != [] && |Mapped(tweets)| == |tweets| && !hasNext ==> r == Scrape(records + Mapped(tweets), sent, false))
      case HttpError(status) =>
        && (status == 401 ==> r == Scrape(records, sent + [Notify("Auth Error")], true))
        && (status != 401 && status != 429 ==> r == Scrape(records, sent + [Notify("HTTP Error")], false))
      case Failed => true
  {
  }

  /** How a pass lets the loop go on, right after its request:
      - a 429 notifies "Rate Limit" and uses up an attempt;
      - any other exception, or a page that raised part way (its mapped
        records kept), notifies "Scraping Error" and uses up an attempt;
      - a whole page with has_next is appended and hands on its cursor. */
  lemma ScrapeGoesOn(respond: nat -> Response, n: nat, records: seq<TweetRecord>, cursor: Option<string>,
                     attempts: nat, done: seq<Action>)
    requires Scraping(records, attempts)
    ensures var sent, r := done + [GetPage(CursorParam(cursor))], ScrapeFrom(respond, n, records, cursor, attempts, done);
      match respond(n)
      case HttpError(status) =>
        status == 429 ==> r == ScrapeFrom(respond, n + 1, records, cursor, attempts + 1, sent + [Notify("Rate Limit")])
      case Failed =>
        r == ScrapeFrom(respond, n + 1, records, cursor, attempts + 1, sent + [Notify("Scraping Error")])
      case Page(tweets, next, hasNext) =>
        && (tweets != [] && |Mapped(tweets)| < |tweets| ==>
              r == ScrapeFrom(respond, n + 1, records + Mapped(tweets), cursor, attempts + 1, sent + [Notify("Scraping Error")]))
        && (tweets != [] && |Mapped(tweets)| == |tweets| && hasNext ==>
              r == ScrapeFrom(respond, n + 1, records + Mapped(tweets), next, attempts, sent))
  {
  }

  /** The scrape only appends: to the actions before it and to the records
      collected so far. */
  lemma {:induction false} ScrapeExtends(respond: nat -> Response, n: nat, records: seq<TweetRecord>, cursor: Option<string>,
                                         attempts: nat, done: seq<Action>)
    ensures var r := ScrapeFrom(respond, n, records, cursor, attempts, done);
      done <= r.trace && records <= r.records
    decreases MaxScrapingAttempts - attempts, MaxTweets - |records|
  {
    if Scraping(records, attempts) {
      var sent := done + [GetPage(CursorParam(cursor))];
      var p := Handle(respond(n), records, cursor, attempts, sent);
      HandleExtends(respond(n), records, cursor, attempts, sent);
      if !p.stop {
        ScrapeExtends(respond, n + 1, p.records, p.cursor, p.attempts, p.trace);
      }
    }
  }

  /** While the loop condition holds, the next action is a page request that
      carries the current cursor when it is truthy, and no cursor otherwise. */
  lemma ScrapeNextRequest(respond: nat -> Response, n: nat, records: seq<TweetRecord>, cursor: Option<string>,
                          attempts: nat, done: seq<Action>)
    requires Scraping(records, attempts)
    ensures var r := ScrapeFrom(respond, n, records, cursor, attempts, done);
      |done| < |r.trace| && r.trace[|done|] == GetPage(if cursor.Some? && cursor.value != "" then cursor else None)
  {
    var sent := done + [GetPage(CursorParam(cursor))];
    var p := Handle(respond(n), records, cursor, attempts, sent);
    HandleExtends(respond(n), records, cursor, attempts, sent);
    if !p.stop {
      ScrapeExtends(respond, n + 1, p.records, p.cursor, p.attempts, p.trace);
    }
    assert sent[|done|] == GetPage(CursorParam(cursor));
  }

  /** Every action the scrape adds is a page request or a notification. */
  lemma {:induction false} ScrapeActions(respond: nat -> Response, n: nat, records: seq<TweetRecord>, cursor: Option<string>,
                                         attempts: nat, done: seq<Action>)
    ensures forall i :: |done| <= i < |ScrapeFrom(respond, n, records, cursor, attempts, done).trace| ==>
      ScrapeFrom(respond, n, records, cursor, attempts, done).trace[i].GetPage? ||
      ScrapeFrom(respond, n, records, cursor, attempts, done).trace[i].Notify?
    decreases MaxScrapingAttempts - attempts, MaxTweets - |records|
  {
    var r := ScrapeFrom(respond, n, records, cursor, attempts, done);
    if Scraping(records, attempts) {
      var sent := done + [GetPage(CursorParam(cursor))];
      var p := Handle(respond(n), records, cursor, attempts, sent);
      HandleExtends(respond(n), records, cursor, attempts, sent);
      if !p.stop {
        ScrapeActions(respond, n + 1, p.records, p.cursor, p.attempts, p.trace);
        ScrapeExtends(respond, n + 1, p.records, p.cursor, p.attempts, p.trace);
      }
      assert r.trace[..|p.trace|] == p.trace;
      forall i | |done| <= i < |p.trace|
        ensures r.trace[i].GetPage? || r.trace[i].Notify?
      {
        assert r.trace[i] == p.trace[i];
        if i == |done| {
          assert p.trace[i] == sent[i];
        }
      }
    }
  }

  /** The page requests the loop can still issue from a state. */
  function Budget(records: seq<TweetRecord>, attempts: nat): nat
  {
    if Scraping(records, attempts) then (MaxScrapingAttempts - attempts) + (MaxTweets - |records|) - 1 else 0
  }

  /** Each retried failure uses up an attempt and each page that lets the
      loop go on adds a record, so the requests are bounded by the budget; in
      particular no request is issued once 50 records are collected or the
      attempts reach 3. */
  lemma {:induction false} ScrapeRequestsBound(respond: nat -> Response, n: nat, records: seq<TweetRecord>, cursor: Option<string>,
                                               attempts: nat, done: seq<Action>)
    ensures Count(ScrapeFrom(respond, n, records, cursor, attempts, done).trace, IsRequest)
         <= Count(done, IsRequest) + Budget(records, attempts)
    decreases MaxScrapingAttempts - attempts, MaxTweets - |records|
  {
    if Scraping(records, attempts) {
      var sent := done + [GetPage(CursorParam(cursor))];
      var p := Handle(respond(n), records, cursor, attempts, sent);
      CountAppend(done, [GetPage(CursorParam(cursor))], IsRequest);
      CountOne(GetPage(CursorParam(cursor)), IsRequest);
      HandleCounts(respond(n), records, cursor, attempts, sent);
      if !p.stop {
        assert Budget(p.records, p.attempts) + 1 <= Budget(records, attempts);
        ScrapeRequestsBound(respond, n + 1, p.records, p.cursor, p.attempts, p.trace);
      }
    }
  }

  /** Every rate limit and every other retried failure uses up one of the
      remaining attempts. */
  lemma {:induction false} ScrapeRetriesBound(respond: nat -> Response, n: nat, records: seq<TweetRecord>, cursor: Option<string>,
                                              attempts: nat, done: seq<Action>)
    requires attempts <= MaxScrapingAttempts
    ensures Count(ScrapeFrom(respond, n, records, cursor, attempts, done).trace, IsRetry)
         <= Count(done, IsRetry) + (MaxScrapingAttempts - attempts)
    decreases MaxScrapingAttempts - attempts, MaxTweets - |records|
  {
    if Scraping(records, attempts) {
      var sent := done + [GetPage(CursorParam(cursor))];
      var p := Handle(respond(n), records, cursor, attempts, sent);
      CountAppend(done, [GetPage(CursorParam(cursor))], IsRetry);
      CountOne(GetPage(CursorParam(cursor)), IsRetry);
      HandleCounts(respond(n), records, cursor, attempts, sent);
      if !p.stop {
        ScrapeRetriesBound(respond, n + 1, p.records, p.cursor, p.attempts, p.trace);
      }
    }
  }

  /** A whole page is appended before the cap is tested, so the records can
      pass 50, but by less than the largest page. */
  lemma {:induction false} ScrapeRecordsBound(respond: nat -> Response, n: nat, records: seq<TweetRecord>, cursor: Option<string>,
                                              attempts: nat, done: seq<Action>, pageSize: nat)
    requires forall k :: respond(k).Page? ==> |respond(k).tweets| <= pageSize
    requires |records| < MaxTweets + pageSize
    ensures |ScrapeFrom(respond, n, records, cursor, attempts, done).records| < MaxTweets + pageSize
    decreases MaxScrapingAttempts - attempts, MaxTweets - |records|
  {
    if Scraping(records, attempts) {
      var sent := done + [GetPage(CursorParam(cursor))];
      var p := Handle(respond(n), records, cursor, attempts, sent);
      HandleRecords(respond(n), records, cursor, attempts, sent);
      if !p.stop {
        ScrapeRecordsBound(respond, n + 1, p.records, p.cursor, p.attempts, p.trace, pageSize);
      }
    }
  }

  /** A 401 or another non-429 HTTP error ends the scrape: its notification
      can only be the last action. */
  lemma {:induction false} ScrapeEndsAtError(respond: nat -> Response, n: nat, records: seq<TweetRecord>, cursor: Option<string>,
                                             attempts: nat, done: seq<Action>)
    ensures var r := ScrapeFrom(respond, n, records, cursor, attempts, done);
      forall i :: |done| <= i < |r.trace| - 1 ==> !EndsScrape(r.trace[i])
    decreases MaxScrapingAttempts - attempts, MaxTweets - |records|
  {
    var r := ScrapeFrom(respond, n, records, cursor, attempts, done);
    if Scraping(records, attempts) {
      var sent := done + [GetPage(CursorParam(cursor))];
      var p := Handle(respond(n), records, cursor, attempts, sent);
      HandleExtends(respond(n), records, cursor, attempts, sent);
      HandleEnds(respond(n), records, cursor, attempts, sent);
      assert p.trace[|done|] == GetPage(CursorParam(cursor));
      if !p.stop {
        ScrapeEndsAtError(respond, n + 1, p.records, p.cursor, p.attempts, p.trace);
        ScrapeExtends(respond, n + 1, p.records, p.cursor, p.attempts, p.trace);
        assert r.trace[..|p.trace|] == p.trace;
        forall i | |done| <= i < |p.trace|
          ensures !EndsScrape(r.trace[i])
        {
          assert r.trace[i] == p.trace[i];
        }
      }
    }
  }

  /** The whole run is abandoned exactly when the scrape's last action is the
      "Auth Error" notification of a 401. */
  lemma {:induction false} ScrapeAuthFailed(respond: nat -> Response, n: nat, records: seq<TweetRecord>, cursor: Option<string>,
                                            attempts: nat, done: seq<Action>)
    requires done == [] || done[|done| - 1] != Notify("Auth Error")
    ensures var r := ScrapeFrom(respond, n, records, cursor, attempts, done);
      r.authFailed <==> r.trace != [] && r.trace[|r.trace| - 1] == Notify("Auth Error")
    decreases MaxScrapingAttempts - attempts, MaxTweets - |records|
  {
    if Scraping(records, attempts) {
      var sent := done + [GetPage(CursorParam(cursor))];
      var p := Handle(respond(n), records, cursor, attempts, sent);
      assert sent[|sent| - 1] == GetPage(CursorParam(cursor));
      HandleAuthLast(respond(n), records, cursor, attempts, sent);
      if !p.stop {
        ScrapeAuthFailed(respond, n + 1, p.records, p.cursor, p.attempts, p.trace);
      }
    }
  }

  /** The cursor hand-off: after a whole page with `has_next` the next
      request carries that page's truthy `next_cursor`; after a retried
      failure (a rate limit, an exception, a page that raised part way) it
      carries the same cursor again. */
  lemma ScrapeCursorHandOff(respond: nat -> Response, n: nat, records: seq<TweetRecord>, cursor: Option<string>,
                            attempts: nat, done: seq<Action>)
    requires Scraping(records, attempts)
    ensures var r := ScrapeFrom(respond, n, records, cursor, attempts, done);
      match respond(n)
      case Page(tweets, next, hasNext) =>
        && (tweets != [] && |Mapped(tweets)| == |tweets| && hasNext && Scraping(records + Mapped(tweets), attempts)
            ==> |done| + 1 < |r.trace| && r.trace[|done| + 1] == GetPage(CursorParam(next)))
        && (tweets != [] && |Mapped(tweets)| < |tweets| && Scraping(records + Mapped(tweets), attempts + 1)
            ==> |done| + 2 < |r.trace| && r.trace[|done| + 2] == GetPage(CursorParam(cursor)))
      case HttpError(status) =>
        status == 429 && Scraping(records, attempts + 1)
        ==> |done| + 2 < |r.trace| && r.trace[|done| + 2] == GetPage(CursorParam(cursor))
      case Failed =>
        Scraping(records, attempts + 1)
        ==> |done| + 2 < |r.trace| && r.trace[|done| + 2] == GetPage(CursorParam(cursor))
  {
    var sent := done + [GetPage(CursorParam(cursor))];
    var p := Handle(respond(n), records, cursor, attempts, sent);
    if !p.stop && Scraping(p.records, p.attempts) {
      ScrapeNextRequest(respond, n + 1, p.records, p.cursor, p.attempts, p.trace);
    }
  }

  /** The scrape of a run: the first request carries no cursor, at most 52
      page requests are made (3 retried failures and 49 pages that let the
      loop go on, then one last request), at most 3 failures are retried, and
      nothing but page requests and notifications happens. */
  lemma ScrapeFromStart(respond: nat -> Response)
    ensures var r := ScrapeFrom(respond, 0, [], None, 0, []);
      && |r.trace| > 0 && r.trace[0] == GetPage(None)
      && Count(r.trace, IsRequest) <= 52
      && Count(r.trace, IsRetry) <= MaxScrapingAttempts
      && forall a :: a in r.trace ==> a.GetPage? || a.Notify?
  {
    var r := ScrapeFrom(respond, 0, [], None, 0, []);
    ScrapeActions(respond, 0, [], None, 0, []);
    forall a | a in r.trace
      ensures a.GetPage? || a.Notify?
    {
      var i :| 0 <= i < |r.trace| && r.trace[i] == a;
    }
    ScrapeNextRequest(respond, 0, [], None, 0, []);
    ScrapeRequestsBound(respond, 0, [], None, 0, []);
    ScrapeRetriesBound(respond, 0, [], None, 0, []);
  }
}
