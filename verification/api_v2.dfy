/**
 * The parts of the API v2.3 client the report depends on: which product a URL names and
 * the API root and team slug that follow from it, the paging loop of `get_items` over the
 * replies a server gives, the `include` list of `create_filter`, and the batching of user
 * ids in `get_reputation_history`. Replies are inputs: the HTTP transport is not modelled.
 */
module ApiV2 {
  import opened Wrappers
  import opened Text
  import opened Records

  // ---- the client ----

  /**
   * A client for Stack Overflow for Teams Business or Basic (a team slug and an access
   * token) or for Stack Overflow Enterprise (a site URL and an API key).
   */
  datatype Client =
    | Business(teamSlug: string, accessToken: string, optionalKey: Option<string>)
    | Enterprise(siteUrl: string, apiKey: string, optionalToken: Option<string>)

  /** Why the constructor stops: three SystemExits and the IndexError of a URL without "/c/". */
  datatype ClientError = MissingUrl | NoTeamPath | MissingToken | MissingKey

  const TeamsDomain := "stackoverflowteams.com"
  const TeamsPrefix := "https://" + TeamsDomain + "/c/"
  const TeamsApi := "https://api.stackoverflowteams.com/2.3"

  function ApiUrl(c: Client): string {
    match c
    case Business(_, _, _) => TeamsApi
    case Enterprise(url, _, _) => url + "/api/2.3"
  }

  function TeamSlug(c: Client): Option<string> {
    match c
    case Business(slug, _, _) => Some(slug)
    case Enterprise(_, _, _) => None
  }

  predicate Soe(c: Client) {
    c.Enterprise?
  }

  /** Python truthiness of an optional string argument. */
  predicate Given(s: Option<string>) {
    s.Some? && s.value != ""
  }

  /** `V2Client.__init__` without the connection test. */
  function NewClient(url: string, key: Option<string>, token: Option<string>): (r: Result<Client, ClientError>)
    ensures url == "" <==> r == Err(MissingUrl)
    ensures url != "" && Contains(url, TeamsDomain) ==>
      && (r == Err(NoTeamPath) <==> !Contains(url, TeamsPrefix))
      && (r == Err(MissingToken) <==> Contains(url, TeamsPrefix) && !Given(token))
      && (r.Ok? ==> && !Soe(r.value) && ApiUrl(r.value) == TeamsApi
                    && TeamSlug(r.value) == SplitSecond(url, TeamsPrefix))
    ensures url != "" && !Contains(url, TeamsDomain) ==>
      && (r == Err(MissingKey) <==> !Given(key))
      && (r.Ok? ==> Soe(r.value) && ApiUrl(r.value) == url + "/api/2.3" && TeamSlug(r.value).None?)
  {
    if url == "" then Err(MissingUrl)
    else if Contains(url, TeamsDomain) then
      match SplitSecond(url, TeamsPrefix)
      case None => Err(NoTeamPath)
      case Some(slug) => if Given(token) then Ok(Business(slug, token.value, key)) else Err(MissingToken)
    else if Given(key) then Ok(Enterprise(url, key.value, token))
    else Err(MissingKey)
  }

  lemma OccursBetween(a: string, b: string, c: string)
    ensures OccursAt(a + b + c, b, |a|)
  {
    assert (a + b + c)[|a|..|a| + |b|] == b;
  }

  lemma TeamsUrlHasDomain(slug: string)
    ensures Contains(TeamsPrefix + slug, TeamsDomain)
  {
    OccursBetween("https://", TeamsDomain, "/c/" + slug);
    assert "https://" + TeamsDomain + ("/c/" + slug) == TeamsPrefix + slug;
  }

  lemma SlugAfterPrefix(slug: string)
    requires !Contains(slug, TeamsPrefix)
    ensures SplitSecond(TeamsPrefix + slug, TeamsPrefix) == Some(slug)
  {
    var url := TeamsPrefix + slug;
    assert url[..|TeamsPrefix|] == TeamsPrefix;
    assert FirstOccurrence(url, TeamsPrefix) == Some(0);
    assert url[|TeamsPrefix|..] == slug;
  }

  /**
   * A Teams URL gives back its team slug: the text after "https://stackoverflowteams.com/c/",
   * for any slug that does not itself repeat that prefix.
   */
  lemma TeamUrlRoundTrip(slug: string, key: Option<string>, token: string)
    requires !Contains(slug, TeamsPrefix) && token != ""
    ensures NewClient(TeamsPrefix + slug, key, Some(token)) == Ok(Business(slug, token, key))
  {
    TeamsUrlHasDomain(slug);
    SlugAfterPrefix(slug);
  }

  /** The Teams domain without the "/c/" path, as in "https://x.stackoverflowteams.com", is the uncaught IndexError. */
  lemma TeamUrlWithoutPath()
    ensures NewClient("https://x." + TeamsDomain, None, Some("t")) == Err(NoTeamPath)
  {
    var url := "https://x." + TeamsDomain;
    OccursBetween("https://x.", TeamsDomain, "");
    assert url + "" == url;
    assert |url| < |TeamsPrefix|;
  }

  // ---- one paged request ----

  /** The query parameters: `page` when present, and the others by name. */
  datatype Params = Params(page: Option<int>, fields: Dict)

  /** The JSON body of a reply: `items` (absent is `None`), `has_more`, and `backoff` (0 when absent). */
  datatype Body<T> = Body(items: Option<seq<T>>, hasMore: bool, backoff: int)

  /** A reply: the status code and the body, `None` when the text is not JSON. */
  datatype Reply<T> = Reply(status: int, body: Option<Body<T>>)

  /**
   * How the paging loop ended: the last page (`has_more` false), a non-200 status (both
   * return the items), or a SystemExit on a non-JSON body, a TypeError on a body without
   * `items`, a KeyError on a request without `page`; or the given replies ran out.
   */
  datatype End = Done | HttpError(status: int) | NotJson | NoItems | NoPage | OutOfReplies

  /** What the loop produced: the items, the parameters of every request made, the backoff waits. */
  datatype Fetch<T> = Fetch(items: seq<T>, requests: seq<Params>, waits: seq<int>, end: End)

  /** `get_items` returns normally (rather than raising) after the last page or a failed status. */
  predicate Returns(e: End) {
    e.Done? || e.HttpError?
  }

  /** A reply after which the loop asks for the next page. */
  predicate Continues<T>(r: Reply<T>) {
    r.status == 200 && r.body.Some? && r.body.value.items.Some? && r.body.value.hasMore
  }

  /** The items a reply adds: those of a 200 reply whose JSON body holds `items`. */
  function PageItems<T>(r: Reply<T>): seq<T> {
    if r.status == 200 && r.body.Some? && r.body.value.items.Some? then r.body.value.items.value else []
  }

  function AllItems<T>(rs: seq<Reply<T>>): seq<T> {
    if |rs| == 0 then [] else PageItems(rs[0]) + AllItems(rs[1..])
  }

  /** The wait before the next page: `backoff + 1` seconds when a continuing reply asks for one. */
  function PageWaits<T>(r: Reply<T>): seq<int> {
    if Continues(r) && r.body.value.backoff != 0 then [r.body.value.backoff + 1] else []
  }

  function AllWaits<T>(rs: seq<Reply<T>>): seq<int> {
    if |rs| == 0 then [] else PageWaits(rs[0]) + AllWaits(rs[1..])
  }

  /** How a reply ends the loop when it is the last one consumed. */
  function Verdict<T>(r: Reply<T>, pagePresent: bool): End {
    if r.status != 200 then HttpError(r.status)
    else if r.body.None? then NotJson
    else if r.body.value.items.None? then NoItems
    else if !r.body.value.hasMore then Done
    else if !pagePresent then NoPage
    else OutOfReplies
  }

  /** The paging loop of `get_items` as a specification, one reply per request. */
  function Crawl<T>(params: Params, replies: seq<Reply<T>>): Fetch<T>
    decreases |replies|
  {
    if |replies| == 0 then Fetch([], [], [], OutOfReplies)
    else
      var r := replies[0];
      if !Continues(r) || params.page.None? then
        Fetch(PageItems(r), [params], PageWaits(r), Verdict(r, params.page.Some?))
      else
        var rest := Crawl(params.(page := Some(params.page.value + 1)), replies[1..]);
        Fetch(PageItems(r) + rest.items, [params] + rest.requests, PageWaits(r) + rest.waits, rest.end)
  }

  /** The page numbers of the requests, from the first one on. */
  predicate Consecutive(params: Params, requests: seq<Params>) {
    forall t :: 0 <= t < |requests| ==>
      requests[t] == (if params.page.Some? then params.(page := Some(params.page.value + t)) else params)
  }

  /**
   * The requests the loop makes: one per reply consumed, at least one when there is a
   * reply, on consecutive pages, and at most one without a page number.
   */
  lemma {:induction false} CrawlShape<T>(params: Params, replies: seq<Reply<T>>)
    ensures var f := Crawl(params, replies);
      var n := |f.requests|;
      && n <= |replies| && (n == 0 <==> |replies| == 0)
      && Consecutive(params, f.requests)
      && (params.page.None? ==> n <= 1)
    decreases |replies|
  {
    var f := Crawl(params, replies);
    if |replies| > 0 && Continues(replies[0]) && params.page.Some? {
      var n := |f.requests|;
      var next := params.(page := Some(params.page.value + 1));
      var rest := Crawl(next, replies[1..]);
      CrawlShape(next, replies[1..]);
      forall t | 0 <= t < n ensures f.requests[t] == params.(page := Some(params.page.value + t)) {
        if t > 0 {
          assert f.requests[t] == rest.requests[t - 1];
        }
      }
    }
  }

  /**
   * How the loop ends: every reply but the last consumed asked for more; stopping early is
   * the verdict on the last consumed reply or the missing page number; running out of
   * replies means every one asked for more; Done and HttpError are read off the last reply.
   */
  lemma {:induction false} CrawlEnds<T>(params: Params, replies: seq<Reply<T>>)
    ensures var f := Crawl(params, replies);
      var n := |f.requests|;
      && n <= |replies|
      && (forall t :: 0 <= t < n - 1 ==> Continues(replies[t]))
      && (n > 0 && n < |replies| ==> f.end == Verdict(replies[n - 1], true) || f.end == NoPage)
      && (f.end == OutOfReplies ==> n == |replies| && forall t :: 0 <= t < n ==> Continues(replies[t]))
      && (f.end.Done? ==> n > 0 && replies[n - 1].status == 200 && replies[n - 1].body.Some? && !replies[n - 1].body.value.hasMore)
      && (f.end.HttpError? ==> n > 0 && replies[n - 1].status == f.end.status != 200)
    decreases |replies|
  {
    var f := Crawl(params, replies);
    if |replies| > 0 && Continues(replies[0]) && params.page.Some? {
      var n := |f.requests|;
      var next := params.(page := Some(params.page.value + 1));
      var rest := Crawl(next, replies[1..]);
      CrawlEnds(next, replies[1..]);
      var m := |rest.requests|;
      assert n == m + 1;
      forall t | 0 <= t < n - 1 || (f.end == OutOfReplies && t == n - 1) ensures Continues(replies[t]) {
        if t > 0 {
          assert replies[t] == replies[1..][t - 1];
        }
      }
      if m > 0 && (n < |replies| || f.end.Done? || f.end.HttpError?) {
        assert replies[n - 1] == replies[1..][m - 1];
      }
    }
  }

  /**
   * What the loop collects: the items of the consumed pages in order, a failed page adding
   * none, and the backoffs of the pages that asked for more.
   */
  lemma {:induction false} CrawlCollects<T>(params: Params, replies: seq<Reply<T>>)
    ensures var f := Crawl(params, replies);
      && |f.requests| <= |replies|
      && f.items == AllItems(replies[..|f.requests|])
      && f.waits == AllWaits(replies[..|f.requests|])
    decreases |replies|
  {
    var f := Crawl(params, replies);
    if |replies| > 0 {
      var r := replies[0];
      var n := |f.requests|;
      if !Continues(r) || params.page.None? {
        assert replies[..1] == [r];
        assert AllItems(replies[..1]) == PageItems(r) + AllItems(replies[..1][1..]);
        assert AllWaits(replies[..1]) == PageWaits(r) + AllWaits(replies[..1][1..]);
      } else {
        var next := params.(page := Some(params.page.value + 1));
        CrawlCollects(next, replies[1..]);
        assert replies[..n][0] == r;
        assert replies[..n][1..] == replies[1..][..n - 1];
      }
    }
  }

  // ---- get_items ----

  /** The parameters as `get_items` sends them: with `team` set to the slug on Business and Basic. */
  function Prepared(c: Client, params: Params): (p: Params)
    ensures p.page == params.page
    ensures !Soe(c) ==> p.fields == params.fields["team" := StrVal(TeamSlug(c).value)]
    ensures Soe(c) ==> p == params
  {
    match c
    case Business(slug, _, _) => params.(fields := params.fields["team" := StrVal(slug)])
    case Enterprise(_, _, _) => params
  }

  /** What the loop has gathered so far, followed by what the remaining replies give. */
  function After<T>(items: seq<T>, requests: seq<Params>, waits: seq<int>, f: Fetch<T>): Fetch<T> {
    Fetch(items + f.items, requests + f.requests, waits + f.waits, f.end)
  }

  /** One turn of the loop: the first reply either ends the crawl or hands the rest on to the next page. */
  lemma CrawlStep<T>(items: seq<T>, requests: seq<Params>, waits: seq<int>, p: Params, rs: seq<Reply<T>>)
    requires |rs| > 0
    ensures var r := rs[0];
      var f := After(items, requests, waits, Crawl(p, rs));
      if !Continues(r) || p.page.None? then
        f == Fetch(items + PageItems(r), requests + [p], waits + PageWaits(r), Verdict(r, p.page.Some?))
      else
        f == After(items + PageItems(r), requests + [p], waits + PageWaits(r),
                   Crawl(p.(page := Some(p.page.value + 1)), rs[1..]))
  {
    var r := rs[0];
    if Continues(r) && p.page.Some? {
      var rest := Crawl(p.(page := Some(p.page.value + 1)), rs[1..]);
      assert items + (PageItems(r) + rest.items) == items + PageItems(r) + rest.items;
      assert requests + ([p] + rest.requests) == requests + [p] + rest.requests;
      assert waits + (PageWaits(r) + rest.waits) == waits + PageWaits(r) + rest.waits;
    }
  }

  /**
   * The body of one turn of `get_items`, in its order: a failed status ends the loop, a
   * non-JSON body raises, a body without `items` raises, the items are added, no
   * `has_more` ends the loop, a backoff is waited out, a missing page number raises.
   */
  method ReadPage<T>(r: Reply<T>, pagePresent: bool) returns (more: bool, got: seq<T>, wait: seq<int>, end: End)
    ensures more <==> Continues(r) && pagePresent
    ensures got == PageItems(r) && wait == PageWaits(r)
    ensures !more ==> end == Verdict(r, pagePresent)
  {
    got, wait := [], [];
    if r.status != 200 {
      return false, got, wait, HttpError(r.status);
    }
    if r.body.None? {
      return false, got, wait, NotJson;
    }
    var body := r.body.value;
    if body.items.None? {
      return false, got, wait, NoItems;
    }
    got := body.items.value;
    if !body.hasMore {
      return false, got, wait, Done;
    }
    if body.backoff != 0 {
      wait := [body.backoff + 1];
    }
    if !pagePresent {
      return false, got, wait, NoPage;
    }
    return true, got, wait, OutOfReplies;
  }

  /**
   * `get_items`: request page after page, collecting the items, until a reply without
   * `has_more` or with a failed status; the i-th request gets `replies[i]`.
   */
  method GetItems<T>(c: Client, params: Params, replies: seq<Reply<T>>) returns (f: Fetch<T>)
    ensures f == Crawl(Prepared(c, params), replies)
  {
    var p := params;
    if !Soe(c) {
      p := p.(fields := p.fields["team" := StrVal(TeamSlug(c).value)]);
    }
    assert p == Prepared(c, params);
    var items: seq<T> := [];
    var requests: seq<Params> := [];
    var waits: seq<int> := [];
    var i := 0;
    assert replies[0..] == replies;
    assert After(items, requests, waits, Crawl(p, replies)) == Crawl(p, replies);
    while true
      invariant 0 <= i <= |replies|
      invariant After(items, requests, waits, Crawl(p, replies[i..])) == Crawl(Prepared(c, params), replies)
      decreases |replies| - i
    {
      if i == |replies| {
        assert replies[i..] == [];
        assert items + [] == items && requests + [] == requests && waits + [] == waits;
        return Fetch(items, requests, waits, OutOfReplies);
      }
      assert replies[i..][0] == replies[i] && replies[i..][1..] == replies[i + 1..];
      CrawlStep(items, requests, waits, p, replies[i..]);
      var more, got, wait, end := ReadPage(replies[i], p.page.Some?);
      items, requests, waits := items + got, requests + [p], waits + wait;
      if !more {
        return Fetch(items, requests, waits, end);
      }
      p := p.(page := Some(p.page.value + 1));
      i := i + 1;
    }
  }

  // ---- create_filter ----

  /** The parameters of `create_filter`: `base`, `unsafe` False, and `include` only when there are attributes. */
  function FilterParams(attributes: seq<string>, base: string): (p: Params)
    ensures p.page.None?
    ensures "include" in p.fields <==> |attributes| > 0
    ensures |attributes| > 0 ==> p.fields["include"] == StrVal(Join(attributes, ";"))
    ensures "base" in p.fields && "unsafe" in p.fields
    ensures p.fields["base"] == StrVal(base) && p.fields["unsafe"] == BoolVal(false)
  {
    var fields := map["base" := StrVal(base), "unsafe" := BoolVal(false)];
    Params(None, if |attributes| > 0 then fields["include" := StrVal(Join(attributes, ";"))] else fields)
  }

  /** The include list the server receives splits back into the attributes, none lost and none added. */
  lemma IncludeRoundTrip(attributes: seq<string>, base: string)
    requires |attributes| > 0
    requires forall i :: 0 <= i < |attributes| ==> ';' !in attributes[i]
    ensures Split(FilterParams(attributes, base).fields["include"].s, ';') == attributes
  {
    SplitJoin(attributes, ';');
  }

  /** Why `create_filter` raises: the paging loop raised, no item came back (IndexError), or it has no `filter` (KeyError). */
  datatype FilterError = Paging(end: End) | NoFilterItem | NoFilterField

  /** `create_filter`: the `filter` field of the first item returned. */
  method CreateFilter(c: Client, attributes: seq<string>, base: string, replies: seq<Reply<Dict>>)
    returns (r: Result<Value, FilterError>)
    ensures var f := Crawl(Prepared(c, FilterParams(attributes, base)), replies);
      && (!Returns(f.end) ==> r == Err(Paging(f.end)))
      && (Returns(f.end) && |f.items| == 0 ==> r == Err(NoFilterItem))
      && (Returns(f.end) && |f.items| > 0 ==>
            r == if "filter" in f.items[0] then Ok(f.items[0]["filter"]) else Err(NoFilterField))
  {
    var f := GetItems(c, FilterParams(attributes, base), replies);
    if !Returns(f.end) {
      return Err(Paging(f.end));
    }
    if |f.items| == 0 {
      return Err(NoFilterItem);
    }
    if "filter" !in f.items[0] {
      return Err(NoFilterField);
    }
    return Ok(f.items[0]["filter"]);
  }

  /** The filter request has no page number: it asks once, and a reply asking for more is the KeyError. */
  lemma FilterRequestAsksOnce(c: Client, attributes: seq<string>, base: string, replies: seq<Reply<Dict>>)
    requires |replies| > 0
    ensures var f := Crawl(Prepared(c, FilterParams(attributes, base)), replies);
      |f.requests| == 1 && (Continues(replies[0]) <==> f.end == NoPage)
  {
  }

  // ---- get_reputation_history ----

  /** `[xs[i:i + size] for i in range(0, len(xs), size)]`. */
  function Chunks<T>(xs: seq<T>, size: nat): seq<seq<T>>
    requires size > 0
    decreases |xs|
  {
    if |xs| == 0 then [] else if |xs| <= size then [xs] else [xs[..size]] + Chunks(xs[size..], size)
  }

  function Flatten<T>(xss: seq<seq<T>>): seq<T> {
    if |xss| == 0 then [] else xss[0] + Flatten(xss[1..])
  }

  /** One more full batch in front: the bounds on the count carry over to a list `size` longer. */
  lemma BatchCountStep(n: int, k: int, size: int)
    requires size > 0 && n > size
    requires (k - 1) * size < n - size <= k * size
    ensures k * size < n <= (k + 1) * size
  {
    assert (k + 1) * size == k * size + size;
    assert (k - 1) * size == k * size - size;
  }

  /**
   * The batches put back together are the list itself; each holds 1 to `size` elements,
   * and there are as many as it takes: all but the last full.
   */
  lemma {:induction false} ChunksCorrect<T>(xs: seq<T>, size: nat)
    requires size > 0
    ensures Flatten(Chunks(xs, size)) == xs
    ensures forall i :: 0 <= i < |Chunks(xs, size)| ==> 0 < |Chunks(xs, size)[i]| <= size
    ensures forall i :: 0 <= i < |Chunks(xs, size)| - 1 ==> |Chunks(xs, size)[i]| == size
    ensures (|Chunks(xs, size)| - 1) * size < |xs| <= |Chunks(xs, size)| * size || |xs| == |Chunks(xs, size)| == 0
    decreases |xs|
  {
    if |xs| > size {
      var rest := Chunks(xs[size..], size);
      ChunksCorrect(xs[size..], size);
      var c := Chunks(xs, size);
      assert c[1..] == rest;
      assert xs[..size] + xs[size..] == xs;
      forall i | 0 <= i < |c| ensures 0 < |c[i]| <= size {
        if i > 0 {
          assert c[i] == rest[i - 1];
        }
      }
      forall i | 0 <= i < |c| - 1 ensures |c[i]| == size {
        if i > 0 {
          assert c[i] == rest[i - 1];
        }
      }
      BatchCountStep(|xs|, |rest|, size);
    } else if |xs| > 0 {
      assert Chunks(xs, size) == [xs];
      assert Flatten([xs]) == xs + Flatten([xs][1..]);
      assert [xs][1..] == [];
    }
  }

  /** 120 user ids make three requests. */
  lemma ThreeBatchesForOneHundredTwenty(ids: seq<string>)
    requires |ids| == 120
    ensures |Chunks(ids, 50)| == 3
  {
    ChunksCorrect(ids, 50);
  }

  /** `str(user_id)` for every id. */
  function IdStrings(ids: seq<int>): (r: seq<string>)
    ensures |r| == |ids|
    ensures forall i :: 0 <= i < |ids| ==> r[i] == IntToString(ids[i])
  {
    if |ids| == 0 then [] else [IntToString(ids[0])] + IdStrings(ids[1..])
  }

  /** The endpoint of one batch: the ids joined with ';'. */
  function HistoryUrl(c: Client, batch: seq<string>): string {
    ApiUrl(c) + "/users/" + Join(batch, ";") + "/reputation-history"
  }

  /** The listing parameters: page 1, 100 per page, and the filter when one is given. */
  function ListingParams(filter: string): (p: Params)
    ensures p.page == Some(1) && "pagesize" in p.fields && p.fields["pagesize"] == IntVal(100)
    ensures "filter" in p.fields <==> filter != ""
  {
    var fields := map["pagesize" := IntVal(100)];
    Params(Some(1), if filter != "" then fields["filter" := StrVal(filter)] else fields)
  }

  // ---- get_all_questions and get_all_articles: binding the callers' keywords ----

  /** A keyword argument the callee does not declare: Python raises TypeError before the body runs. */
  datatype CallError = UnexpectedKeyword(name: string)

  /** The keyword parameters `get_all_questions` and `get_all_articles` declare. */
  const ListingKeywords: set<string> := {"filter_string"}

  /** The keywords of the wrappers once they take the date window. */
  const DatedListingKeywords: set<string> := {"filter_string", "fromdate", "todate"}

  /** The keywords the question and article collectors pass, in order, whatever their values. */
  const WindowKeywords: seq<string> := ["fromdate", "todate"]

  /**
   * Binding keyword arguments in the order passed: the first one the callee does not
   * declare raises; otherwise the call goes ahead.
   */
  function BindKeywords(declared: set<string>, passed: seq<string>): (r: Option<CallError>)
    ensures r.None? <==> forall i :: 0 <= i < |passed| ==> passed[i] in declared
    ensures r.Some? ==> exists i :: (0 <= i < |passed| && passed[i] !in declared
      && r.value == UnexpectedKeyword(passed[i])
      && forall k :: 0 <= k < i ==> passed[k] in declared)
  {
    if |passed| == 0 then None
    else if passed[0] !in declared then Some(UnexpectedKeyword(passed[0]))
    else
      var r := BindKeywords(declared, passed[1..]);
      assert forall i :: 1 <= i < |passed| ==> passed[i] == passed[1..][i - 1];
      r
  }

  /**
   * The wrappers as written: the collectors pass `fromdate` and `todate` as keywords,
   * which the wrappers do not declare, so every call raises before `get_items` runs.
   */
  function ListingCallAsWritten(filter: string, fromdate: Option<int>, todate: Option<int>): (r: Result<Params, CallError>)
    ensures r == Err(UnexpectedKeyword("fromdate"))
  {
    match BindKeywords(ListingKeywords, WindowKeywords)
    case Some(e) => Err(e)
    case None => Ok(ListingParams(filter))
  }

  /** The listing parameters narrowed to the date window: each bound is sent when given. */
  function DatedListingParams(filter: string, fromdate: Option<int>, todate: Option<int>): (p: Params)
    ensures p.page == ListingParams(filter).page
    ensures forall k :: k in ListingParams(filter).fields ==> k in p.fields && p.fields[k] == ListingParams(filter).fields[k]
    ensures forall k :: k in p.fields ==> k in ListingParams(filter).fields || k == "fromdate" || k == "todate"
    ensures ("fromdate" in p.fields <==> fromdate.Some?) && ("todate" in p.fields <==> todate.Some?)
    ensures fromdate.Some? ==> p.fields["fromdate"] == IntVal(fromdate.value)
    ensures todate.Some? ==> p.fields["todate"] == IntVal(todate.value)
  {
    var base := ListingParams(filter);
    var f1 := if fromdate.Some? then base.fields["fromdate" := IntVal(fromdate.value)] else base.fields;
    var f2 := if todate.Some? then f1["todate" := IntVal(todate.value)] else f1;
    Params(base.page, f2)
  }

  /** The wrappers as intended: the call binds and asks for the listing inside the window. */
  function ListingCall(filter: string, fromdate: Option<int>, todate: Option<int>): (r: Result<Params, CallError>)
    ensures r.Ok? && r.value == DatedListingParams(filter, fromdate, todate)
  {
    match BindKeywords(DatedListingKeywords, WindowKeywords)
    case Some(e) => Err(e)
    case None => Ok(DatedListingParams(filter, fromdate, todate))
  }

  /**
   * The discrepancy: for every filter and window, including no window at all, the call as
   * written raises on `fromdate`, while the intended call binds and keeps the listing
   * parameters, adding only the bounds given.
   */
  lemma WindowCallMismatch(filter: string, fromdate: Option<int>, todate: Option<int>)
    ensures ListingCallAsWritten(filter, fromdate, todate).Err?
    ensures ListingCallAsWritten(filter, fromdate, todate).error.name !in ListingKeywords
    ensures ListingCall(filter, fromdate, todate).Ok?
    ensures fromdate.None? && todate.None? ==>
      ListingCall(filter, fromdate, todate).value == ListingParams(filter)
  {
    var p := ListingCall(filter, fromdate, todate).value;
    if fromdate.None? && todate.None? {
      assert p.fields.Keys == ListingParams(filter).fields.Keys;
    }
  }

  /**
   * The reputation history as a specification: each batch's events in batch order; a
   * batch whose paging loop raises ends the whole call with that error.
   */
  function History(c: Client, batches: seq<seq<string>>, filter: string,
                   server: string -> seq<Reply<RepEvent>>): Result<seq<RepEvent>, End>
  {
    if |batches| == 0 then Ok([])
    else
      var f := Crawl(Prepared(c, ListingParams(filter)), server(HistoryUrl(c, batches[0])));
      if !Returns(f.end) then Err(f.end)
      else match History(c, batches[1..], filter, server)
        case Ok(rest) => Ok(f.items + rest)
        case Err(e) => Err(e)
  }

  /** `events` in front of a successful history; an error stays the error. */
  function Prefixed(events: seq<RepEvent>, h: Result<seq<RepEvent>, End>): Result<seq<RepEvent>, End> {
    match h
    case Ok(rest) => Ok(events + rest)
    case Err(e) => Err(e)
  }

  lemma PrefixedNothing(h: Result<seq<RepEvent>, End>)
    ensures Prefixed([], h) == h
  {
    if h.Ok? {
      assert [] + h.value == h.value;
    }
  }

  lemma PrefixedTwice(a: seq<RepEvent>, b: seq<RepEvent>, h: Result<seq<RepEvent>, End>)
    ensures Prefixed(a, Prefixed(b, h)) == Prefixed(a + b, h)
  {
    if h.Ok? {
      assert a + (b + h.value) == a + b + h.value;
    }
  }

  lemma HistoryStep(c: Client, batches: seq<seq<string>>, i: nat, filter: string,
                    server: string -> seq<Reply<RepEvent>>)
    requires i < |batches|
    ensures var f := Crawl(Prepared(c, ListingParams(filter)), server(HistoryUrl(c, batches[i])));
      History(c, batches[i..], filter, server) ==
        if !Returns(f.end) then Err(f.end) else Prefixed(f.items, History(c, batches[i + 1..], filter, server))
  {
    assert batches[i..][0] == batches[i] && batches[i..][1..] == batches[i + 1..];
  }

  /** One paged request per batch, in batch order, until a batch's paging loop raises. */
  method FetchBatches(c: Client, batches: seq<seq<string>>, filter: string, server: string -> seq<Reply<RepEvent>>)
    returns (r: Result<seq<RepEvent>, End>, urls: seq<string>)
    ensures r == History(c, batches, filter, server)
    ensures |urls| <= |batches| && (r.Ok? ==> |urls| == |batches|)
    ensures forall t :: 0 <= t < |urls| ==> urls[t] == HistoryUrl(c, batches[t])
  {
    var events: seq<RepEvent> := [];
    urls := [];
    var i := 0;
    assert batches[0..] == batches;
    PrefixedNothing(History(c, batches, filter, server));
    while i < |batches|
      invariant 0 <= i <= |batches| && |urls| == i
      invariant forall t :: 0 <= t < i ==> urls[t] == HistoryUrl(c, batches[t])
      invariant History(c, batches, filter, server) == Prefixed(events, History(c, batches[i..], filter, server))
    {
      var url := HistoryUrl(c, batches[i]);
      urls := urls + [url];
      var f := GetItems(c, ListingParams(filter), server(url));
      HistoryStep(c, batches, i, filter, server);
      if !Returns(f.end) {
        return Err(f.end), urls;
      }
      PrefixedTwice(events, f.items, History(c, batches[i + 1..], filter, server));
      events := events + f.items;
      i := i + 1;
    }
    assert batches[i..] == [];
    assert events + [] == events;
    return Ok(events), urls;
  }

  /**
   * `get_reputation_history`: the ids as strings in batches of 50, one paged request per
   * batch to the endpoint naming the batch, the events of all batches concatenated.
   * `server` gives the replies the endpoint returns; `urls` records the endpoints asked.
   */
  method GetReputationHistory(c: Client, userIds: seq<int>, filter: string, server: string -> seq<Reply<RepEvent>>)
    returns (r: Result<seq<RepEvent>, End>, urls: seq<string>)
    ensures r == History(c, Chunks(IdStrings(userIds), 50), filter, server)
    ensures var batches := Chunks(IdStrings(userIds), 50);
      && |urls| <= |batches| && (r.Ok? ==> |urls| == |batches|)
      && forall t :: 0 <= t < |urls| ==> urls[t] == HistoryUrl(c, batches[t])
  {
    var batches := Chunks(IdStrings(userIds), 50);
    r, urls := FetchBatches(c, batches, filter, server);
  }

  /**
   * When every batch's loop returns, the history is the events of each batch in batch
   * order; and each batch's ids, read back from its endpoint's ';'-separated list, are
   * the ids of that batch.
   */
  lemma {:induction false} HistoryConcatenates(c: Client, batches: seq<seq<string>>, filter: string,
                                               server: string -> seq<Reply<RepEvent>>)
    requires forall t :: 0 <= t < |batches| ==>
      Returns(Crawl(Prepared(c, ListingParams(filter)), server(HistoryUrl(c, batches[t]))).end)
    ensures History(c, batches, filter, server) ==
      Ok(Flatten(BatchItems(c, batches, filter, server)))
    decreases |batches|
  {
    if |batches| > 0 {
      HistoryConcatenates(c, batches[1..], filter, server);
    }
  }

  function BatchItems(c: Client, batches: seq<seq<string>>, filter: string,
                      server: string -> seq<Reply<RepEvent>>): (r: seq<seq<RepEvent>>)
    ensures |r| == |batches|
  {
    if |batches| == 0 then []
    else
      var items := Crawl(Prepared(c, ListingParams(filter)), server(HistoryUrl(c, batches[0]))).items;
      [items] + BatchItems(c, batches[1..], filter, server)
  }

  /** The ids of a batch travel intact: splitting the endpoint's list on ';' gives them back, and each parses to its id. */
  lemma BatchIdsRoundTrip(ids: seq<int>, t: nat)
    requires t < |Chunks(IdStrings(ids), 50)|
    ensures var batch := Chunks(IdStrings(ids), 50)[t];
      && Split(Join(batch, ";"), ';') == batch
      && forall k :: 0 <= k < |batch| ==> ParseInt(batch[k]).Some?
  {
    var strs := IdStrings(ids);
    ChunksCorrect(strs, 50);
    var batch := Chunks(strs, 50)[t];
    ChunkMembers(strs, 50, t);
    forall k | 0 <= k < |batch| ensures ';' !in batch[k] && ParseInt(batch[k]).Some? {
      IdStringClean(ids, batch[k]);
    }
    SplitJoin(batch, ';');
  }

  lemma IdStringClean(ids: seq<int>, s: string)
    requires s in IdStrings(ids)
    ensures ';' !in s && ParseInt(s).Some?
  {
    var strs := IdStrings(ids);
    var j :| 0 <= j < |strs| && strs[j] == s;
    ParseIntOfIntToString(ids[j]);
    assert forall k :: 0 <= k < |s| ==> s[k] == '-' || IsDigit(s[k]);
  }

  lemma {:induction false} ChunkMembers<T>(xs: seq<T>, size: nat, t: nat)
    requires size > 0 && t < |Chunks(xs, size)|
    ensures forall k :: 0 <= k < |Chunks(xs, size)[t]| ==> Chunks(xs, size)[t][k] in xs
    decreases |xs|
  {
    if |xs| > size && t > 0 {
      ChunkMembers(xs[size..], size, t - 1);
      forall k | 0 <= k < |Chunks(xs, size)[t]| ensures Chunks(xs, size)[t][k] in xs {
        var x := Chunks(xs, size)[t][k];
        assert x in xs[size..];
      }
    } else if |xs| > size {
      forall k | 0 <= k < |Chunks(xs, size)[t]| ensures Chunks(xs, size)[t][k] in xs {
        assert Chunks(xs, size)[t][k] == xs[k];
      }
    }
  }
}
