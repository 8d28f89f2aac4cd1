/** The messaging-platform client of intercom-api.ts: construction with
    defaults, the cursor-paginated contact listing and contact search, the
    role filter, the continuation-cursor normaliser, the "active" segment
    lookup and the active-audience fallback chain.

    HTTP is not executed. The platform is a script of responses: the k-th
    page request of a listing is answered by the k-th `Page` of the script.
    A listing that would go on asking after the script is used up ends as
    `Unfinished` (the program would keep fetching). */
module IntercomApi {

  import opened Common
  import opened Strings

  const BaseUrl: string := "https://api.intercom.io"

  const DefaultRateLimitDelay: int := 50
  const DefaultBatchSize: int := 150
  const DefaultMaxPages: int := 0

  const TokenRequired: string := "Intercom token is required"
  const AdminIdRequired: string := "Admin ID is required"

  // ---------------------------------------------------------------------------
  // Construction

  /** `IntercomApiOptions`; `None` is a field left `undefined`. */
  datatype Options = Options(
    rateLimitDelay: Option<int>,
    batchSize: Option<int>,
    maxPages: Option<int>,
    debug: Option<bool>)

  const NoOptions: Options := Options(None, None, None, None)

  /** A constructed client. `maxPages == 0` means no page budget. */
  datatype Client = Client(
    token: string,
    adminId: string,
    rateLimitDelay: int,
    batchSize: int,
    maxPages: int,
    debug: bool)

  /** `field` holds the option when it was given (even a zero or `false`),
      and the default otherwise. */
  predicate Applied<T(==)>(field: T, given: Option<T>, default: T) {
    if given.Some? then field == given.value else field == default
  }

  /** `new IntercomApi(token, adminId, options)`. A missing (empty) token is
      reported before a missing admin id. */
  function NewClient(token: string, adminId: string, options: Option<Options>): (r: Result<Client, string>)
    ensures r.Ok? <==> token != "" && adminId != ""
    ensures token == "" ==> r == Err(TokenRequired)
    ensures token != "" && adminId == "" ==> r == Err(AdminIdRequired)
    ensures r.Ok? ==> r.value.token == token && r.value.adminId == adminId
    ensures r.Ok? ==>
      var o := options.GetOr(NoOptions);
      && Applied(r.value.rateLimitDelay, o.rateLimitDelay, DefaultRateLimitDelay)
      && Applied(r.value.batchSize, o.batchSize, DefaultBatchSize)
      && Applied(r.value.maxPages, o.maxPages, DefaultMaxPages)
      && Applied(r.value.debug, o.debug, false)
  {
    if token == "" then Err(TokenRequired)
    else if adminId == "" then Err(AdminIdRequired)
    else
      var o := options.GetOr(NoOptions);
      Ok(Client(token, adminId,
                o.rateLimitDelay.GetOr(DefaultRateLimitDelay),
                o.batchSize.GetOr(DefaultBatchSize),
                o.maxPages.GetOr(DefaultMaxPages),
                o.debug.GetOr(false)))
  }

  /** An explicit zero is an option like any other: it is not replaced by the
      default, unlike the `||` defaults of the active-user sender. */
  lemma ExplicitZeroIsKept(token: string, adminId: string)
    requires token != "" && adminId != ""
    ensures NewClient(token, adminId, Some(Options(Some(0), Some(0), Some(0), Some(false))))
            == Ok(Client(token, adminId, 0, 0, 0, false))
    ensures NewClient(token, adminId, None)
            == Ok(Client(token, adminId, DefaultRateLimitDelay, DefaultBatchSize, DefaultMaxPages, false))
  {
  }

  // ---------------------------------------------------------------------------
  // Contacts and the role filter

  /** A contact as the platform returns it. An empty `contactType` is a
      missing or falsy `type`. */
  datatype Contact = Contact(
    id: string,
    role: string,
    contactType: string,
    email: Option<string>,
    name: Option<string>,
    lastSeenAt: Option<int>)

  /** `IntercomUser`, the record the listings return. */
  datatype User = User(
    id: string,
    userType: string,
    email: Option<string>,
    name: Option<string>,
    lastSeenAt: Option<int>)

  /** The mapping applied to every kept contact: `type` defaults to
      "contact", nothing else is added or changed. */
  function ToUser(c: Contact): (u: User)
    ensures u.id == c.id && u.email == c.email && u.name == c.name && u.lastSeenAt == c.lastSeenAt
    ensures u.userType == (if c.contactType == "" then "contact" else c.contactType)
  {
    User(c.id, if c.contactType == "" then "contact" else c.contactType, c.email, c.name, c.lastSeenAt)
  }

  /** The contacts of one page whose role is "user", mapped to users, in
      page order. */
  function UsersOf(contacts: seq<Contact>): (users: seq<User>)
    ensures |users| <= |contacts|
    ensures forall c | c in contacts && c.role == "user" :: ToUser(c) in users
    ensures forall u | u in users :: exists c | c in contacts :: c.role == "user" && ToUser(c) == u
    decreases |contacts|
  {
    if |contacts| == 0 then []
    else (if contacts[0].role == "user" then [ToUser(contacts[0])] else []) + UsersOf(contacts[1..])
  }

  /** Filtering distributes over concatenation: the filter keeps order. */
  lemma {:induction false} UsersOfAppend(a: seq<Contact>, b: seq<Contact>)
    ensures UsersOf(a + b) == UsersOf(a) + UsersOf(b)
    decreases |a|
  {
    if |a| == 0 {
      assert a + b == b;
    } else {
      assert (a + b)[0] == a[0];
      assert (a + b)[1..] == a[1..] + b;
      UsersOfAppend(a[1..], b);
      ConsAssoc(UsersOfHead(a[0]), UsersOf(a[1..]), UsersOf(b));
    }
  }

  /** The user a contact contributes to a listing: one when its role is
      "user", none otherwise. */
  function UsersOfHead(c: Contact): (us: seq<User>)
    ensures UsersOf([c]) == us
  {
    if c.role == "user" then [ToUser(c)] else []
  }

  lemma ConsAssoc(x: seq<User>, y: seq<User>, z: seq<User>)
    ensures x + (y + z) == (x + y) + z
  {
  }

  const ApiErrorHead: string := "Intercom API error ("
  const ApiErrorSeparator: string := "): "

  /** The text of the error a failed page throws: the status, which reads
      back as a number, and then the body of the response. */
  function ApiErrorMessage(status: int, text: string): (m: string)
    ensures StartsWith(m, ApiErrorHead)
    ensures ParseInt(m[|ApiErrorHead|..], Decimal) == Some(status)
    ensures |text| <= |m| && m[|m| - |text|..] == text
  {
    var m := ApiErrorHead + IntToString(status) + ApiErrorSeparator + text;
    assert m[..|ApiErrorHead|] == ApiErrorHead;
    assert m[|ApiErrorHead|..] == IntToString(status) + (ApiErrorSeparator + text);
    ParseIntToStringThen(status, ApiErrorSeparator + text);
    assert m[|m| - |text|..] == text;
    m
  }

  // ---------------------------------------------------------------------------
  // Continuation cursors

  /** The `url` member of a cursor object: absent or falsy, a string, or a
      truthy non-string value shown here as it is interpolated. */
  datatype UrlField = NoUrl | UrlText(text: string) | UrlValue(rendered: string)

  /** `data.pages.next` in the shapes the platform has been seen to use. */
  datatype NextRef = NoNext | NextText(text: string) | NextObject(url: UrlField)

  /** The next page's URL, or "" to stop. A string is kept when it starts
      with "http", gets the base URL prepended when it starts with "/", and
      stops the listing otherwise; an object's truthy `url` is kept when it is
      a string starting with "http" and gets the base URL prepended in every
      other case. The three listings carry identical copies of this rule. */
  function NormalizeNext(next: NextRef): (url: string)
    ensures url == "" || StartsWith(url, "http")
    ensures next.NoNext? || next == NextObject(NoUrl) ==> url == ""
  {
    assert StartsWith(BaseUrl, "http");
    match next
    case NoNext => ""
    case NextText(s) =>
      if StartsWith(s, "http") then s
      else if StartsWith(s, "/") then StartsWithAppend(BaseUrl, s, "http"); BaseUrl + s
      else ""
    case NextObject(NoUrl) => ""
    case NextObject(UrlText(u)) =>
      if u == "" then ""
      else if StartsWith(u, "http") then u
      else StartsWithAppend(BaseUrl, u, "http"); BaseUrl + u
    case NextObject(UrlValue(r)) => StartsWithAppend(BaseUrl, r, "http"); BaseUrl + r
  }

  /** The four shapes of one continuation agree: a root-relative path and
      its absolute URL, bare or wrapped in an object, all lead to the same
      absolute URL. */
  lemma CursorShapesAgree(path: string)
    requires StartsWith(path, "/")
    ensures NormalizeNext(NextText(path)) == BaseUrl + path
    ensures NormalizeNext(NextText(BaseUrl + path)) == BaseUrl + path
    ensures NormalizeNext(NextObject(UrlText(path))) == BaseUrl + path
    ensures NormalizeNext(NextObject(UrlText(BaseUrl + path))) == BaseUrl + path
  {
    assert path[0] == path[..1][0] == '/';
    assert StartsWith(BaseUrl, "http");
    StartsWithAppend(BaseUrl, path, "http");
  }

  /** The rule shape by shape: an absolute string is kept, a root-relative
      one is made absolute, any other string stops; an object's `url` is
      kept when it is an absolute string, stops when it is empty, and is
      glued to the base URL otherwise, whatever its type. */
  lemma NormalizeNextRule(next: NextRef)
    ensures next.NextText? && StartsWith(next.text, "http") ==> NormalizeNext(next) == next.text
    ensures next.NextText? && !StartsWith(next.text, "http") && StartsWith(next.text, "/") ==>
      NormalizeNext(next) == BaseUrl + next.text
    ensures next.NextText? && !StartsWith(next.text, "http") && !StartsWith(next.text, "/") ==>
      NormalizeNext(next) == ""
    ensures next == NextObject(UrlText("")) ==> NormalizeNext(next) == ""
    ensures next.NextObject? && next.url.UrlText? && StartsWith(next.url.text, "http") ==>
      NormalizeNext(next) == next.url.text
    ensures next.NextObject? && next.url.UrlText? && next.url.text != "" && !StartsWith(next.url.text, "http") ==>
      NormalizeNext(next) == BaseUrl + next.url.text
    ensures next.NextObject? && next.url.UrlValue? ==> NormalizeNext(next) == BaseUrl + next.url.rendered
  {
  }

  /** A normalised URL is its own normal form: handed back as a string
      cursor it is kept as it is, so following a cursor twice does not
      change the page requested. */
  lemma NormalizeNextIdempotent(next: NextRef)
    ensures NormalizeNext(NextText(NormalizeNext(next))) == NormalizeNext(next)
  {
    var url := NormalizeNext(next);
    if url == "" {
      assert !StartsWith("", "http") && !StartsWith("", "/");
    }
  }

  /** Where the two shapes part: a string that is neither absolute nor
      root-relative stops the listing, while the same text as an object's
      `url` is glued to the base URL without a separating slash. */
  lemma RelativeWithoutSlash(text: string)
    requires text != "" && !StartsWith(text, "http") && !StartsWith(text, "/")
    ensures NormalizeNext(NextText(text)) == ""
    ensures NormalizeNext(NextObject(UrlText(text))) == BaseUrl + text
  {
  }

  // ---------------------------------------------------------------------------
  // Requests and paging

  datatype Method = Get | Post

  /** A search filter value; `NullValue` is what `NaN` serialises to. */
  datatype QueryValue = IntValue(n: int) | TextValue(s: string) | NullValue

  datatype Query = Query(field: string, operator: string, value: QueryValue)

  datatype Body = NoBody | SearchBody(query: Query, perPage: int)

  datatype Request = Request(verb: Method, url: string, body: Body)

  /** One page request: a 2xx body, any other status with its text, or a
      request that throws before a page is read (the `fetch` rejects, or the
      body is not JSON or its `data` cannot be filtered), with the message of
      what it threw. */
  datatype Page =
    | Fetched(contacts: seq<Contact>, next: NextRef)
    | HttpError(status: int, text: string)
    | Threw(error: string)

  /** Why a listing failed: a non-2xx page, or a page request that threw. */
  datatype ListingError = StatusError(status: int, text: string) | Thrown(message: string)

  /** The outcome of a listing. A failed listing carries no users: the
      program throws and the partial list is dropped. */
  datatype Listing =
    | Listed(users: seq<User>, requests: seq<Request>)
    | Failed(error: ListingError, requests: seq<Request>)
    | Unfinished(requests: seq<Request>)

  /** The page a listing error comes from. */
  function FailingPage(e: ListingError): Page {
    match e
    case StatusError(status, text) => HttpError(status, text)
    case Thrown(message) => Threw(message)
  }

  /** The error a page that is not a 2xx body ends its listing with. */
  function ErrorOf(p: Page): (e: ListingError)
    requires !p.Fetched?
    ensures FailingPage(e) == p
  {
    match p
    case HttpError(status, text) => StatusError(status, text)
    case Threw(message) => Thrown(message)
  }

  /** The message of the `Error` a failed listing throws: the "Intercom API
      error" text for a non-2xx page, and the thrown error's own message
      otherwise, rethrown unchanged by the loop's `catch`. */
  function ErrorMessage(e: ListingError): string {
    match e
    case StatusError(status, text) => ApiErrorMessage(status, text)
    case Thrown(message) => message
  }

  predicate AllFetched(pages: seq<Page>) {
    forall i | 0 <= i < |pages| :: pages[i].Fetched?
  }

  /** The users of a run of pages, page after page. */
  function UsersOfPages(pages: seq<Page>): seq<User>
  {
    if |pages| == 0 then []
    else (if pages[0].Fetched? then UsersOf(pages[0].contacts) else []) + UsersOfPages(pages[1..])
  }

  /** The loop guard's page budget: `maxPages === 0 || pageCount < maxPages`. */
  predicate WithinBudget(maxPages: int, pageCount: nat) {
    maxPages == 0 || pageCount < maxPages
  }

  /** The request for page `pageCount`: the listing's own first request, then
      a GET on the cursor. */
  function RequestAt(first: Request, url: string, pageCount: nat): Request {
    if pageCount == 0 then first else Request(Get, url, NoBody)
  }

  /** One fetched page in front of the rest of a listing. */
  function Prepend(req: Request, users: seq<User>, rest: Listing): (r: Listing)
    ensures r.requests == [req] + rest.requests
    ensures r.Listed? == rest.Listed? && r.Failed? == rest.Failed? && r.Unfinished? == rest.Unfinished?
    ensures r.Listed? ==> r.users == users + rest.users
    ensures r.Failed? ==> r.error == rest.error
  {
    match rest
    case Listed(us, reqs) => Listed(users + us, [req] + reqs)
    case Failed(error, reqs) => Failed(error, [req] + reqs)
    case Unfinished(reqs) => Unfinished([req] + reqs)
  }

  /** The paging loop shared by the three listings, from a state where
      `pageCount` pages are done and `url` is the cursor. */
  function PageLoop(maxPages: int, first: Request, url: string, pageCount: nat, script: seq<Page>): (r: Listing)
    ensures |r.requests| <= |script|
    ensures maxPages < 0 ==> r == Listed([], [])
    decreases |script|
  {
    if url == "" || !WithinBudget(maxPages, pageCount) then Listed([], [])
    else if |script| == 0 then Unfinished([])
    else if !script[0].Fetched? then Failed(ErrorOf(script[0]), [RequestAt(first, url, pageCount)])
    else
      Prepend(RequestAt(first, url, pageCount), UsersOf(script[0].contacts),
              PageLoop(maxPages, first, NormalizeNext(script[0].next), pageCount + 1, script[1..]))
  }

  /** Request `i > 0` of a run from page `pageCount` on: issued with the
      live cursor of page `i - 1`, inside the page budget, as a plain GET. */
  predicate FollowsCursor(maxPages: int, pageCount: nat, script: seq<Page>, requests: seq<Request>, i: nat)
    requires 1 <= i < |requests| && i <= |script|
  {
    && script[i - 1].Fetched?
    && NormalizeNext(script[i - 1].next) != ""
    && WithinBudget(maxPages, pageCount + i)
    && requests[i] == Request(Get, NormalizeNext(script[i - 1].next), NoBody)
  }

  /** The requests a listing makes: each one is issued with a live cursor
      inside the page budget, and every request after the first is a GET on
      the normalised cursor of the page before it. */
  lemma {:induction false} PageLoopRequests(maxPages: int, first: Request, url: string, pageCount: nat, script: seq<Page>)
    ensures var r := PageLoop(maxPages, first, url, pageCount, script);
      |r.requests| > 0 ==>
        r.requests[0] == RequestAt(first, url, pageCount) && url != "" && WithinBudget(maxPages, pageCount)
    ensures var r := PageLoop(maxPages, first, url, pageCount, script);
      forall i | 1 <= i < |r.requests| :: FollowsCursor(maxPages, pageCount, script, r.requests, i)
    ensures var r := PageLoop(maxPages, first, url, pageCount, script);
      r.Unfinished? ==> |r.requests| == |script|
    decreases |script|, 1
  {
    if url != "" && WithinBudget(maxPages, pageCount) && |script| > 0 && script[0].Fetched? {
      RequestsAfterFetch(maxPages, first, url, pageCount, script);
    }
  }

  /** The inductive step of `PageLoopRequests`, past a fetched first page. */
  lemma {:induction false} RequestsAfterFetch(maxPages: int, first: Request, url: string, pageCount: nat, script: seq<Page>)
    requires url != "" && WithinBudget(maxPages, pageCount) && |script| > 0 && script[0].Fetched?
    ensures var r := PageLoop(maxPages, first, url, pageCount, script);
      |r.requests| > 0 ==>
        r.requests[0] == RequestAt(first, url, pageCount) && url != "" && WithinBudget(maxPages, pageCount)
    ensures var r := PageLoop(maxPages, first, url, pageCount, script);
      forall i | 1 <= i < |r.requests| :: FollowsCursor(maxPages, pageCount, script, r.requests, i)
    ensures var r := PageLoop(maxPages, first, url, pageCount, script);
      r.Unfinished? ==> |r.requests| == |script|
    decreases |script|, 0
  {
    var next := NormalizeNext(script[0].next);
    PageLoopRequests(maxPages, first, next, pageCount + 1, script[1..]);
    var rest := PageLoop(maxPages, first, next, pageCount + 1, script[1..]);
    var r := PageLoop(maxPages, first, url, pageCount, script);
    PageLoopUnfold(maxPages, first, url, pageCount, script);
    forall i | 1 <= i < |r.requests|
      ensures FollowsCursor(maxPages, pageCount, script, r.requests, i)
    {
      assert r.requests[i] == rest.requests[i - 1];
      if i > 1 {
        assert script[1..][i - 2] == script[i - 1];
        assert FollowsCursor(maxPages, pageCount + 1, script[1..], rest.requests, i - 1);
      }
    }
  }

  /** The loop body once: a 2xx page fetched with a live cursor inside the
      budget goes in front of the rest of the listing. */
  lemma PageLoopUnfold(maxPages: int, first: Request, url: string, pageCount: nat, script: seq<Page>)
    requires url != "" && WithinBudget(maxPages, pageCount) && |script| > 0 && script[0].Fetched?
    ensures PageLoop(maxPages, first, url, pageCount, script)
         == Prepend(RequestAt(first, url, pageCount), UsersOf(script[0].contacts),
                    PageLoop(maxPages, first, NormalizeNext(script[0].next), pageCount + 1, script[1..]))
  {
  }

  lemma AllFetchedCons(p: Page, pages: seq<Page>)
    requires p.Fetched? && AllFetched(pages)
    ensures AllFetched([p] + pages)
  {
    assert forall i | 1 <= i < |pages| + 1 :: ([p] + pages)[i] == pages[i - 1];
  }

  lemma UsersOfPagesCons(p: Page, pages: seq<Page>)
    requires p.Fetched?
    ensures UsersOfPages([p] + pages) == UsersOf(p.contacts) + UsersOfPages(pages)
  {
    assert ([p] + pages)[1..] == pages;
  }

  /** A listing that does not fail fetched every page it asked for. */
  lemma {:induction false} PageLoopPagesFetched(maxPages: int, first: Request, url: string, pageCount: nat, script: seq<Page>)
    ensures !PageLoop(maxPages, first, url, pageCount, script).Failed? ==>
      AllFetched(script[..|PageLoop(maxPages, first, url, pageCount, script).requests|])
    decreases |script|
  {
    if url == "" || !WithinBudget(maxPages, pageCount) || |script| == 0 || !script[0].Fetched? {
    } else {
      var next := NormalizeNext(script[0].next);
      PageLoopPagesFetched(maxPages, first, next, pageCount + 1, script[1..]);
      PageLoopUnfold(maxPages, first, url, pageCount, script);
      PagesFetchedStep(script[0], script[1..], RequestAt(first, url, pageCount), UsersOf(script[0].contacts),
                       PageLoop(maxPages, first, next, pageCount + 1, script[1..]));
      assert [script[0]] + script[1..] == script;
    }
  }

  lemma PagesFetchedStep(p: Page, pages: seq<Page>, req: Request, users: seq<User>, rest: Listing)
    requires p.Fetched? && |rest.requests| <= |pages|
    requires !rest.Failed? ==> AllFetched(pages[..|rest.requests|])
    ensures !Prepend(req, users, rest).Failed? ==> AllFetched(([p] + pages)[..|Prepend(req, users, rest).requests|])
  {
    var k := |rest.requests|;
    assert ([p] + pages)[..k + 1] == [p] + pages[..k];
    if !rest.Failed? {
      AllFetchedCons(p, pages[..k]);
    }
  }

  /** A completed listing holds the users of its pages, in order. */
  lemma {:induction false} PageLoopUsers(maxPages: int, first: Request, url: string, pageCount: nat, script: seq<Page>)
    ensures PageLoop(maxPages, first, url, pageCount, script).Listed? ==>
      PageLoop(maxPages, first, url, pageCount, script).users
        == UsersOfPages(script[..|PageLoop(maxPages, first, url, pageCount, script).requests|])
    decreases |script|
  {
    if url == "" || !WithinBudget(maxPages, pageCount) || |script| == 0 || !script[0].Fetched? {
    } else {
      var next := NormalizeNext(script[0].next);
      PageLoopUsers(maxPages, first, next, pageCount + 1, script[1..]);
      PageLoopUnfold(maxPages, first, url, pageCount, script);
      UsersStep(script[0], script[1..], RequestAt(first, url, pageCount),
                PageLoop(maxPages, first, next, pageCount + 1, script[1..]));
      assert [script[0]] + script[1..] == script;
    }
  }

  lemma UsersStep(p: Page, pages: seq<Page>, req: Request, rest: Listing)
    requires p.Fetched? && |rest.requests| <= |pages|
    requires rest.Listed? ==> rest.users == UsersOfPages(pages[..|rest.requests|])
    ensures Prepend(req, UsersOf(p.contacts), rest).Listed? ==>
      Prepend(req, UsersOf(p.contacts), rest).users
        == UsersOfPages(([p] + pages)[..|Prepend(req, UsersOf(p.contacts), rest).requests|])
  {
    var k := |rest.requests|;
    assert ([p] + pages)[..k + 1] == [p] + pages[..k];
    UsersOfPagesCons(p, pages[..k]);
  }

  /** A failed listing stops at a non-2xx page, with that page's error. */
  lemma {:induction false} PageLoopFailedAt(maxPages: int, first: Request, url: string, pageCount: nat, script: seq<Page>)
    ensures PageLoop(maxPages, first, url, pageCount, script).Failed? ==>
      && 1 <= |PageLoop(maxPages, first, url, pageCount, script).requests| <= |script|
      && script[|PageLoop(maxPages, first, url, pageCount, script).requests| - 1]
         == FailingPage(PageLoop(maxPages, first, url, pageCount, script).error)
    decreases |script|, 1
  {
    if url != "" && WithinBudget(maxPages, pageCount) && |script| > 0 && script[0].Fetched? {
      FailedAtAfterFetch(maxPages, first, url, pageCount, script);
    }
  }

  /** The inductive step of `PageLoopFailedAt`, past a fetched first page. */
  lemma {:induction false} FailedAtAfterFetch(maxPages: int, first: Request, url: string, pageCount: nat, script: seq<Page>)
    requires url != "" && WithinBudget(maxPages, pageCount) && |script| > 0 && script[0].Fetched?
    ensures PageLoop(maxPages, first, url, pageCount, script).Failed? ==>
      && 1 <= |PageLoop(maxPages, first, url, pageCount, script).requests| <= |script|
      && script[|PageLoop(maxPages, first, url, pageCount, script).requests| - 1]
         == FailingPage(PageLoop(maxPages, first, url, pageCount, script).error)
    decreases |script|, 0
  {
    var next := NormalizeNext(script[0].next);
    var rest := PageLoop(maxPages, first, next, pageCount + 1, script[1..]);
    PageLoopUnfold(maxPages, first, url, pageCount, script);
    if rest.Failed? {
      PageLoopFailedAt(maxPages, first, next, pageCount + 1, script[1..]);
      var k := |rest.requests|;
      assert script[k] == script[1..][k - 1];
    }
  }

  /** Every page before the one a listing failed on was a 2xx. */
  lemma {:induction false} PageLoopFailedAfterFetched(maxPages: int, first: Request, url: string, pageCount: nat, script: seq<Page>)
    ensures PageLoop(maxPages, first, url, pageCount, script).Failed? ==>
      && 1 <= |PageLoop(maxPages, first, url, pageCount, script).requests|
      && AllFetched(script[..|PageLoop(maxPages, first, url, pageCount, script).requests| - 1])
    decreases |script|
  {
    if url == "" || !WithinBudget(maxPages, pageCount) || |script| == 0 || !script[0].Fetched? {
    } else {
      var next := NormalizeNext(script[0].next);
      PageLoopFailedAfterFetched(maxPages, first, next, pageCount + 1, script[1..]);
      PageLoopUnfold(maxPages, first, url, pageCount, script);
      FailedAfterFetchedStep(script[0], script[1..], RequestAt(first, url, pageCount), UsersOf(script[0].contacts),
                             PageLoop(maxPages, first, next, pageCount + 1, script[1..]));
      assert [script[0]] + script[1..] == script;
    }
  }

  lemma FailedAfterFetchedStep(p: Page, pages: seq<Page>, req: Request, users: seq<User>, rest: Listing)
    requires p.Fetched?
    requires rest.Failed? ==> 1 <= |rest.requests| <= |pages| && AllFetched(pages[..|rest.requests| - 1])
    ensures Prepend(req, users, rest).Failed? ==>
      && 1 <= |Prepend(req, users, rest).requests|
      && AllFetched(([p] + pages)[..|Prepend(req, users, rest).requests| - 1])
  {
    if rest.Failed? {
      var k := |rest.requests|;
      assert ([p] + pages)[..k] == [p] + pages[..k - 1];
      AllFetchedCons(p, pages[..k - 1]);
    }
  }

  /** All or nothing: a listing returns exactly the users of the pages it
      fetched, in order, when every one of them was a 2xx; the first non-2xx
      page ends it with that page's error and no users. */
  lemma {:induction false} PageLoopAllOrNothing(maxPages: int, first: Request, url: string, pageCount: nat, script: seq<Page>)
    ensures var r := PageLoop(maxPages, first, url, pageCount, script);
      !r.Failed? ==> AllFetched(script[..|r.requests|])
    ensures var r := PageLoop(maxPages, first, url, pageCount, script);
      r.Listed? ==> r.users == UsersOfPages(script[..|r.requests|])
    ensures var r := PageLoop(maxPages, first, url, pageCount, script);
      r.Failed? ==>
        && |r.requests| >= 1
        && AllFetched(script[..|r.requests| - 1])
        && script[|r.requests| - 1] == FailingPage(r.error)
  {
    PageLoopPagesFetched(maxPages, first, url, pageCount, script);
    PageLoopUsers(maxPages, first, url, pageCount, script);
    PageLoopFailedAt(maxPages, first, url, pageCount, script);
    PageLoopFailedAfterFetched(maxPages, first, url, pageCount, script);
  }

  /** A listing that makes no request stopped on its guard. */
  lemma PageLoopNoRequest(maxPages: int, first: Request, url: string, pageCount: nat, script: seq<Page>)
    ensures PageLoop(maxPages, first, url, pageCount, script).Listed?
         && |PageLoop(maxPages, first, url, pageCount, script).requests| == 0
         ==> url == "" || !WithinBudget(maxPages, pageCount)
  {
    if url != "" && WithinBudget(maxPages, pageCount) && |script| > 0 && script[0].Fetched? {
      PageLoopUnfold(maxPages, first, url, pageCount, script);
    }
  }

  /** After the last page of a completed listing `r`, the cursor is empty
      or the budget is spent. */
  predicate EndsOnStop(maxPages: int, pageCount: nat, script: seq<Page>, r: Listing) {
    var k := |r.requests|;
    r.Listed? && 0 < k <= |script| ==>
      && script[k - 1].Fetched?
      && (NormalizeNext(script[k - 1].next) == "" || !WithinBudget(maxPages, pageCount + k))
  }

  lemma {:induction false} PageLoopLastPage(maxPages: int, first: Request, url: string, pageCount: nat, script: seq<Page>)
    ensures EndsOnStop(maxPages, pageCount, script, PageLoop(maxPages, first, url, pageCount, script))
    decreases |script|, 1
  {
    if url != "" && WithinBudget(maxPages, pageCount) && |script| > 0 && script[0].Fetched? {
      LastPageAfterFetch(maxPages, first, url, pageCount, script);
    }
  }

  /** The inductive step of `PageLoopLastPage`, past a fetched first page. */
  lemma {:induction false} LastPageAfterFetch(maxPages: int, first: Request, url: string, pageCount: nat, script: seq<Page>)
    requires url != "" && WithinBudget(maxPages, pageCount) && |script| > 0 && script[0].Fetched?
    ensures EndsOnStop(maxPages, pageCount, script, PageLoop(maxPages, first, url, pageCount, script))
    decreases |script|, 0
  {
    var next := NormalizeNext(script[0].next);
    var rest := PageLoop(maxPages, first, next, pageCount + 1, script[1..]);
    PageLoopUnfold(maxPages, first, url, pageCount, script);
    PageLoopNoRequest(maxPages, first, next, pageCount + 1, script[1..]);
    PageLoopLastPage(maxPages, first, next, pageCount + 1, script[1..]);
    LastPageStep(maxPages, pageCount, script, Prepend(RequestAt(first, url, pageCount), UsersOf(script[0].contacts), rest), rest);
  }

  /** `EndsOnStop` for a fetched first page in front of `rest`. */
  lemma LastPageStep(maxPages: int, pageCount: nat, script: seq<Page>, r: Listing, rest: Listing)
    requires |script| > 0 && script[0].Fetched?
    requires r.Listed? == rest.Listed? && |r.requests| == |rest.requests| + 1 && |rest.requests| <= |script| - 1
    requires rest.Listed? && |rest.requests| == 0 ==>
      NormalizeNext(script[0].next) == "" || !WithinBudget(maxPages, pageCount + 1)
    requires EndsOnStop(maxPages, pageCount + 1, script[1..], rest)
    ensures EndsOnStop(maxPages, pageCount, script, r)
  {
    var k := |rest.requests|;
    if rest.Listed? && k > 0 {
      assert script[k] == script[1..][k - 1];
    }
  }

  /** A listing that outruns the script still had budget left. */
  lemma {:induction false} PageLoopUnfinishedBudget(maxPages: int, first: Request, url: string, pageCount: nat, script: seq<Page>)
    ensures var r := PageLoop(maxPages, first, url, pageCount, script);
      r.Unfinished? ==> WithinBudget(maxPages, pageCount + |r.requests|)
    decreases |script|
  {
    if url == "" || !WithinBudget(maxPages, pageCount) || |script| == 0 || !script[0].Fetched? {
    } else {
      var next := NormalizeNext(script[0].next);
      PageLoopUnfinishedBudget(maxPages, first, next, pageCount + 1, script[1..]);
      PageLoopUnfold(maxPages, first, url, pageCount, script);
    }
  }

  /** Why a listing stops: after its last page either the cursor is empty or
      the page budget is spent. How many contacts a page held plays no part. */
  lemma {:induction false} PageLoopStops(maxPages: int, first: Request, url: string, pageCount: nat, script: seq<Page>)
    ensures var r := PageLoop(maxPages, first, url, pageCount, script);
      r.Listed? && |r.requests| == 0 ==> url == "" || !WithinBudget(maxPages, pageCount)
    ensures var r := PageLoop(maxPages, first, url, pageCount, script);
      var k := |r.requests|;
      r.Listed? && k > 0 ==>
        && script[k - 1].Fetched?
        && (NormalizeNext(script[k - 1].next) == "" || !WithinBudget(maxPages, pageCount + k))
    ensures var r := PageLoop(maxPages, first, url, pageCount, script);
      r.Unfinished? ==> WithinBudget(maxPages, pageCount + |r.requests|)
  {
    PageLoopNoRequest(maxPages, first, url, pageCount, script);
    PageLoopLastPage(maxPages, first, url, pageCount, script);
    PageLoopUnfinishedBudget(maxPages, first, url, pageCount, script);
  }

  /** Every request of a run after its first is a GET, without a body, on an
      absolute URL. */
  lemma LaterRequestsAreCursorGets(maxPages: int, first: Request, url: string, script: seq<Page>)
    ensures var r := PageLoop(maxPages, first, url, 0, script);
      forall i | 1 <= i < |r.requests| ::
        r.requests[i].verb == Get && r.requests[i].body == NoBody && StartsWith(r.requests[i].url, "http")
    ensures var r := PageLoop(maxPages, first, url, 0, script);
      maxPages > 0 ==> |r.requests| <= maxPages
  {
    PageLoopRequests(maxPages, first, url, 0, script);
    var r := PageLoop(maxPages, first, url, 0, script);
    forall i | 1 <= i < |r.requests|
      ensures r.requests[i].verb == Get && r.requests[i].body == NoBody && StartsWith(r.requests[i].url, "http")
    {
      assert FollowsCursor(maxPages, 0, script, r.requests, i);
    }
    if |r.requests| > 1 {
      assert FollowsCursor(maxPages, 0, script, r.requests, |r.requests| - 1);
    }
  }

  /** A listing from its first request. */
  function Paginate(maxPages: int, first: Request, script: seq<Page>): (r: Listing)
    ensures maxPages > 0 ==> |r.requests| <= maxPages
    ensures maxPages < 0 ==> r == Listed([], [])
    ensures first.url != "" && WithinBudget(maxPages, 0) && |script| > 0 ==> |r.requests| >= 1
    ensures |r.requests| > 0 ==> r.requests[0] == first
    ensures forall i | 1 <= i < |r.requests| ::
      r.requests[i].verb == Get && r.requests[i].body == NoBody && StartsWith(r.requests[i].url, "http")
  {
    PageLoopRequests(maxPages, first, first.url, 0, script);
    LaterRequestsAreCursorGets(maxPages, first, first.url, script);
    PageLoop(maxPages, first, first.url, 0, script)
  }

  /** The listing-level promises: users are the in-order concatenation of the
      filtered pages, a failure drops everything, and the loop ends only on an
      empty cursor or a spent budget. */
  lemma PaginateFacts(maxPages: int, first: Request, script: seq<Page>)
    ensures var r := Paginate(maxPages, first, script);
      && (r.Listed? ==> AllFetched(script[..|r.requests|]) && r.users == UsersOfPages(script[..|r.requests|]))
      && (r.Failed? ==> |r.requests| >= 1 && script[|r.requests| - 1] == FailingPage(r.error))
      && (r.Listed? && |r.requests| > 0 ==>
            var k := |r.requests|;
            script[k - 1].Fetched? && (NormalizeNext(script[k - 1].next) == "" || !WithinBudget(maxPages, k)))
  {
    PageLoopAllOrNothing(maxPages, first, first.url, 0, script);
    PageLoopStops(maxPages, first, first.url, 0, script);
  }

  /** What the paging lemmas establish about a listing from page
      `pageCount` on, in one place. */
  predicate ListingShape(maxPages: int, pageCount: nat, script: seq<Page>, r: Listing) {
    && |r.requests| <= |script|
    && (!r.Failed? ==> AllFetched(script[..|r.requests|]))
    && (r.Failed? ==>
          && |r.requests| >= 1
          && AllFetched(script[..|r.requests| - 1])
          && script[|r.requests| - 1] == FailingPage(r.error))
    && (r.Listed? && |r.requests| > 0 ==>
          && script[|r.requests| - 1].Fetched?
          && (NormalizeNext(script[|r.requests| - 1].next) == ""
              || !WithinBudget(maxPages, pageCount + |r.requests|)))
    && (r.Unfinished? ==> |r.requests| == |script|)
  }

  lemma PageLoopShape(maxPages: int, first: Request, url: string, pageCount: nat, script: seq<Page>)
    ensures ListingShape(maxPages, pageCount, script, PageLoop(maxPages, first, url, pageCount, script))
  {
    PageLoopAllOrNothing(maxPages, first, url, pageCount, script);
    PageLoopStops(maxPages, first, url, pageCount, script);
    PageLoopRequests(maxPages, first, url, pageCount, script);
  }

  /** A page request that throws ends the listing there, with the thrown
      error as the listing's error: nothing after it is requested and the
      users read so far are dropped. */
  lemma ThrownPageEndsListing(maxPages: int, first: Request, script: seq<Page>, i: nat)
    requires i < |Paginate(maxPages, first, script).requests|
    requires script[i].Threw?
    ensures Paginate(maxPages, first, script) == Failed(Thrown(script[i].error), Paginate(maxPages, first, script).requests)
    ensures |Paginate(maxPages, first, script).requests| == i + 1
  {
    PageLoopShape(maxPages, first, first.url, 0, script);
    FailsAtThrow(maxPages, script, Paginate(maxPages, first, script), i);
  }

  lemma FailsAtThrow(maxPages: int, script: seq<Page>, r: Listing, i: nat)
    requires ListingShape(maxPages, 0, script, r)
    requires i < |r.requests| && script[i].Threw?
    ensures r == Failed(Thrown(script[i].error), r.requests) && |r.requests| == i + 1
  {
  }

  /** A page with no contacts but a live cursor does not end the listing:
      the next page is fetched whenever the budget allows. */
  lemma EmptyPageDoesNotStop(maxPages: int, first: Request, script: seq<Page>, i: nat, next: NextRef)
    requires i < |Paginate(maxPages, first, script).requests|
    requires script[i] == Fetched([], next)
    requires NormalizeNext(next) != "" && WithinBudget(maxPages, i + 1) && i + 1 < |script|
    ensures |Paginate(maxPages, first, script).requests| > i + 1
  {
    PageLoopShape(maxPages, first, first.url, 0, script);
    ContinuesPastEmptyPage(maxPages, script, Paginate(maxPages, first, script), i, next);
  }

  lemma ContinuesPastEmptyPage(maxPages: int, script: seq<Page>, r: Listing, i: nat, next: NextRef)
    requires ListingShape(maxPages, 0, script, r)
    requires i < |r.requests|
    requires script[i] == Fetched([], next)
    requires NormalizeNext(next) != "" && WithinBudget(maxPages, i + 1) && i + 1 < |script|
    ensures |r.requests| > i + 1
  {
    var k := |r.requests|;
    if r.Failed? && i < k - 1 {
      assert script[..k - 1][i] == script[i];
    }
  }

  // ---------------------------------------------------------------------------
  // The three listings

  const SearchUrl: string := BaseUrl + "/contacts/search"

  function ContactsUrl(batchSize: int): string {
    BaseUrl + "/contacts?per_page=" + IntToString(batchSize)
  }

  /** `listAllUsers`: GET pages of the contact list. */
  function ListAllUsers(client: Client, script: seq<Page>): (r: Listing)
    ensures |r.requests| > 0 ==> r.requests[0] == Request(Get, ContactsUrl(client.batchSize), NoBody)
    ensures forall i | 0 <= i < |r.requests| :: r.requests[i].verb == Get && r.requests[i].body == NoBody
    ensures client.maxPages > 0 ==> |r.requests| <= client.maxPages
  {
    Paginate(client.maxPages, Request(Get, ContactsUrl(client.batchSize), NoBody), script)
  }

  /** A contact search (the body of `getUsersBySegment` and of the
      `last_seen_at` fallback): only the first request is a POST carrying the
      query; every later one is a GET on the normalised cursor. */
  function SearchContacts(client: Client, query: Query, script: seq<Page>): (r: Listing)
    ensures |r.requests| > 0 ==>
      r.requests[0] == Request(Post, SearchUrl, SearchBody(query, client.batchSize))
    ensures forall i | 1 <= i < |r.requests| :: r.requests[i].verb == Get && r.requests[i].body == NoBody
    ensures client.maxPages > 0 ==> |r.requests| <= client.maxPages
  {
    Paginate(client.maxPages, Request(Post, SearchUrl, SearchBody(query, client.batchSize)), script)
  }

  // ---------------------------------------------------------------------------
  // Segments and the active audience

  /** A segment; an empty `id` is a missing one. */
  datatype Segment = Segment(id: string, name: string)

  /** The `/segments` call: a non-2xx status or a thrown exception, or the
      listed segments. */
  datatype SegmentsReply = SegmentsUnavailable | Segments(segments: seq<Segment>)

  predicate IsActiveName(name: string) {
    ToLower(name) == "active"
  }

  /** The id of the first segment named "active" in any letter case. */
  function FirstActiveSegment(segments: seq<Segment>): (r: Option<string>)
    ensures r.Some? <==> exists s | s in segments :: IsActiveName(s.name)
    ensures r.Some? ==> exists i | 0 <= i < |segments| ::
      && IsActiveName(segments[i].name)
      && segments[i].id == r.value
      && forall j | 0 <= j < i :: !IsActiveName(segments[j].name)
    decreases |segments|
  {
    if |segments| == 0 then None
    else if IsActiveName(segments[0].name) then Some(segments[0].id)
    else
      var r := FirstActiveSegment(segments[1..]);
      assert forall s | s in segments[1..] :: s in segments;
      assert r.Some? ==> exists i | 0 <= i < |segments[1..]| :: segments[1..][i].id == r.value && IsActiveName(segments[1..][i].name)
                                && forall j | 0 <= j < i :: !IsActiveName(segments[1..][j].name);
      r
  }

  /** `getActiveSegmentId`: `None` (null) when the call fails or nothing
      matches. */
  function ActiveSegmentId(reply: SegmentsReply): (r: Option<string>)
    ensures reply.SegmentsUnavailable? ==> r.None?
    ensures reply.Segments? ==> r == FirstActiveSegment(reply.segments)
  {
    match reply
    case SegmentsUnavailable => None
    case Segments(segments) => FirstActiveSegment(segments)
  }

  /** The platform the listings talk to: the segment reply and the scripted
      pages of each kind of listing. */
  datatype Platform = Platform(
    segments: SegmentsReply,
    segmentPages: seq<Page>,
    searchPages: seq<Page>,
    contactPages: seq<Page>)

  /** `now - days * 86400` with `now` the current Unix time in whole seconds;
      `None` days is `NaN`, which the search body carries as null. */
  function CutoffValue(nowMs: int, days: Option<int>): (v: QueryValue)
    ensures days.Some? ==> v == IntValue(nowMs / 1000 - days.value * 86400)
    ensures days.None? ==> v == NullValue
  {
    match days
    case Some(d) => IntValue(nowMs / 1000 - d * 24 * 60 * 60)
    case None => NullValue
  }

  function SegmentQuery(segmentId: string): Query {
    Query("segment_id", "=", TextValue(segmentId))
  }

  function LastSeenQuery(cutoff: QueryValue): Query {
    Query("last_seen_at", ">", cutoff)
  }

  /** Which strategy produced the active audience. */
  datatype ActiveSource = SegmentSearch(segmentId: string) | LastSeenSearch(cutoff: QueryValue)

  datatype ActiveUsers = ActiveUsers(source: ActiveSource, listing: Listing)

  /** `listActiveUsers(days)`: the members of the "active" segment when one
      with a truthy id exists and its search does not fail; otherwise (no
      segment, or its search threw) the contacts seen after the cutoff. An
      error of that fallback is the result: there is no third strategy. */
  function ListActiveUsers(client: Client, days: Option<int>, nowMs: int, platform: Platform): (r: ActiveUsers)
    ensures r.source.SegmentSearch? ==>
      && ActiveSegmentId(platform.segments) == Some(r.source.segmentId)
      && r.source.segmentId != ""
      && r.listing == SearchContacts(client, SegmentQuery(r.source.segmentId), platform.segmentPages)
      && !r.listing.Failed?
    ensures r.source.LastSeenSearch? ==>
      && r.source.cutoff == CutoffValue(nowMs, days)
      && r.listing == SearchContacts(client, LastSeenQuery(r.source.cutoff), platform.searchPages)
    ensures
      var id := ActiveSegmentId(platform.segments);
      (id.Some? && id.value != "" && !SearchContacts(client, SegmentQuery(id.value), platform.segmentPages).Failed?)
      <==> r.source.SegmentSearch?
  {
    var id := ActiveSegmentId(platform.segments);
    if id.Some? && id.value != "" then
      var viaSegment := SearchContacts(client, SegmentQuery(id.value), platform.segmentPages);
      if !viaSegment.Failed? then ActiveUsers(SegmentSearch(id.value), viaSegment)
      else LastSeenFallback(client, days, nowMs, platform)
    else LastSeenFallback(client, days, nowMs, platform)
  }

  function LastSeenFallback(client: Client, days: Option<int>, nowMs: int, platform: Platform): ActiveUsers {
    var cutoff := CutoffValue(nowMs, days);
    ActiveUsers(LastSeenSearch(cutoff), SearchContacts(client, LastSeenQuery(cutoff), platform.searchPages))
  }

  /** A segment search whose first request throws falls back to the
      `last_seen_at` search, as one whose first page is a non-2xx does. */
  lemma SegmentSearchThrowFallsBack(client: Client, days: Option<int>, nowMs: int, platform: Platform)
    requires ActiveSegmentId(platform.segments).Some? && ActiveSegmentId(platform.segments).value != ""
    requires client.maxPages >= 0
    requires |platform.segmentPages| > 0 && !platform.segmentPages[0].Fetched?
    ensures ListActiveUsers(client, days, nowMs, platform).source.LastSeenSearch?
  {
    var id := ActiveSegmentId(platform.segments).value;
    var first := Request(Post, SearchUrl, SearchBody(SegmentQuery(id), client.batchSize));
    assert StartsWith(SearchUrl, BaseUrl);
    assert first.url != "";
  }

  /** The active audience never widens to the whole contact list: every
      request it makes is a search (POST with a query first, then GETs on
      cursors), and a failing fallback fails the resolution. */
  lemma NoFallbackToAllUsers(client: Client, days: Option<int>, nowMs: int, platform: Platform)
    ensures var r := ListActiveUsers(client, days, nowMs, platform);
      && (|r.listing.requests| > 0 ==>
            && r.listing.requests[0].verb == Post
            && r.listing.requests[0].url == SearchUrl)
      && (r.listing.Failed? ==> r.source.LastSeenSearch?)
      && (r.source.LastSeenSearch? ==>
            (r.listing.Failed? <==>
             SearchContacts(client, LastSeenQuery(CutoffValue(nowMs, days)), platform.searchPages).Failed?))
  {
  }
}
