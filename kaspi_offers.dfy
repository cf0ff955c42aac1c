/**
 * Model of `fetch_offers` in src/services/kaspi_parser.py: the offers API is walked page by
 * page (50 offers a page), each page POSTed up to `max_retries` times with a backoff, and the
 * raw offers are normalised to merchant name and price. The HTTP session is replaced by a
 * script: the outcome of the cookie GET and the sequence of POST outcomes in the order the
 * POSTs are made. Sleeps are recorded as the list of planned delays in milliseconds.
 */
module KaspiOffers {
  import opened Wrappers
  import opened Utils

  // ===========================================================================
  // Inputs: raw offers and scripted POST outcomes
  // ===========================================================================

  /** The `merchantName` field of a raw offer: missing, JSON null, or a string. */
  datatype RawName = NameAbsent | NameNull | Name(s: string)

  /** The `price` field of a raw offer: missing, null, a number, or an object whose `amount` may be missing or null. */
  datatype RawPrice = PriceAbsent | PriceNull | PriceNumber(n: int) | PriceObject(amount: Option<int>)

  datatype RawOffer = RawOffer(name: RawName, price: RawPrice)

  /** A response body: not JSON, or a JSON object whose `offers` list is given (missing or null as `[]`). */
  datatype Body = Malformed | Parsed(offers: seq<RawOffer>)

  /** One `session.post`: a response with its status code, or a `requests.RequestException`. */
  datatype PostOutcome = Response(status: int, body: Body) | TransportError

  /** A normalised offer: `merchant_name` and `price`, either of which may be `None`. */
  datatype Offer = Offer(merchantName: Option<string>, price: Option<int>)

  /** The JSON payload of one POST, with the endpoint it is sent to. */
  datatype Payload = Payload(endpoint: string, cityId: string, limit: nat, page: nat, sort: bool)

  const PageLimit: nat := 50
  const StatusOk: int := 200
  const StatusTooManyRequests: int := 429
  /** Sleep after a non-429 failure status or a transport error, in milliseconds. */
  const RetryDelay: nat := 1000
  /** Sleep between two pages, in milliseconds. */
  const PageDelay: nat := 500
  const DefaultMaxRetries: int := 3
  const UnknownMerchant: string := "Unknown"
  const OffersEndpoint: string := "https://kaspi.kz/yml/offer-view/offers/"

  /** The outcome of the next POST; a script that has run out answers with transport errors. */
  function Post(script: seq<PostOutcome>, next: nat): PostOutcome {
    if next < |script| then script[next] else TransportError
  }

  function Pow2(n: nat): (p: nat)
    ensures p >= 1
  {
    if n == 0 then 1 else 2 * Pow2(n - 1)
  }

  // ===========================================================================
  // Offer normalisation
  // ===========================================================================

  /** `offer.get("merchantName", "Unknown")`: only a missing field becomes "Unknown"; null stays null. */
  function MerchantName(name: RawName): (m: Option<string>)
    ensures name.NameAbsent? ==> m == Some(UnknownMerchant)
    ensures name.NameNull? ==> m.None?
    ensures name.Name? ==> m == Some(name.s)
  {
    match name
    case NameAbsent => Some(UnknownMerchant)
    case NameNull => None
    case Name(s) => Some(s)
  }

  /** `price["amount"]` when the price is an object, the price itself otherwise. */
  function OfferPrice(price: RawPrice): (p: Option<int>)
    ensures price.PriceNumber? ==> p == Some(price.n)
    ensures price.PriceObject? ==> p == price.amount
    ensures price.PriceAbsent? || price.PriceNull? ==> p.None?
  {
    match price
    case PriceAbsent => None
    case PriceNull => None
    case PriceNumber(n) => Some(n)
    case PriceObject(amount) => amount
  }

  function NormalizeOffer(raw: RawOffer): Offer {
    Offer(MerchantName(raw.name), OfferPrice(raw.price))
  }

  /** The offers of one page, normalised one by one in server order. */
  function Normalize(raw: seq<RawOffer>): (offers: seq<Offer>)
    ensures |offers| == |raw|
    ensures forall i :: 0 <= i < |raw| ==> offers[i] == NormalizeOffer(raw[i])
  {
    seq(|raw|, i requires 0 <= i < |raw| => NormalizeOffer(raw[i]))
  }

  /** `for offer in offers: ... all_offers.append(processed_offer)`. */
  method AppendOffers(all: seq<Offer>, raw: seq<RawOffer>) returns (result: seq<Offer>)
    ensures result == all + Normalize(raw)
  {
    result := all;
    var i := 0;
    while i < |raw|
      invariant 0 <= i <= |raw|
      invariant result == all + Normalize(raw[..i])
    {
      var offer := raw[i];
      var price := OfferPrice(offer.price);
      var processed := Offer(MerchantName(offer.name), price);
      assert Normalize(raw[..i + 1]) == Normalize(raw[..i]) + [processed];
      result := result + [processed];
      i := i + 1;
    }
    assert raw[..i] == raw;
  }

  // ===========================================================================
  // One page: the retry loop
  // ===========================================================================

  /**
   * The retry loop of one page: `body` is the body of the 200 response if one came, `used` the
   * number of POSTs made and `delays` the sleeps between and after them.
   */
  datatype PageFetch = PageFetch(body: Option<Body>, used: nat, delays: seq<nat>)

  /**
   * The sleep after a failed attempt: `2 ** attempt` seconds after a 429, one second after any
   * other status, and one second after a transport error unless it was the last attempt.
   */
  function FailureDelay(outcome: PostOutcome, attempt: nat, maxRetries: int): (d: seq<nat>)
    ensures outcome.Response? ==> |d| == 1
    ensures outcome.TransportError? ==> (|d| == 1 <==> attempt < maxRetries - 1) && |d| <= 1
  {
    match outcome
    case Response(status, _) =>
      if status == StatusTooManyRequests then [Pow2(attempt) * 1000] else [RetryDelay]
    case TransportError =>
      if attempt < maxRetries - 1 then [RetryDelay] else []
  }

  /** `rest` preceded by `n` failed POSTs that scheduled the sleeps `delays`. */
  function AfterFailures(n: nat, delays: seq<nat>, rest: PageFetch): PageFetch {
    PageFetch(rest.body, rest.used + n, delays + rest.delays)
  }

  lemma AfterFailuresCompose(n: nat, d: seq<nat>, m: nat, e: seq<nat>, f: PageFetch)
    ensures AfterFailures(n, d, AfterFailures(m, e, f)) == AfterFailures(n + m, d + e, f)
  {
    assert d + (e + f.delays) == (d + e) + f.delays;
  }

  /** The attempts `attempt`, `attempt + 1`, ... of the retry loop, the next POST being `script[next]`. */
  function RetryPost(script: seq<PostOutcome>, next: nat, attempt: nat, maxRetries: int): (f: PageFetch)
    ensures attempt < maxRetries ==> 1 <= f.used <= maxRetries - attempt
    ensures attempt >= maxRetries ==> f == PageFetch(None, 0, [])
    ensures f.body.Some? ==> next + f.used <= |script|
    decreases maxRetries - attempt
  {
    if attempt >= maxRetries then PageFetch(None, 0, [])
    else
      var outcome := Post(script, next);
      if outcome.Response? && outcome.status == StatusOk then PageFetch(Some(outcome.body), 1, [])
      else AfterFailures(1, FailureDelay(outcome, attempt, maxRetries), RetryPost(script, next + 1, attempt + 1, maxRetries))
  }

  /**
   * `for attempt in range(max_retries)` of one page, from the POST `script[start]` on. As in the
   * source, `response` keeps the last answered POST and a transport error leaves it as it was.
   */
  method PostWithRetry(script: seq<PostOutcome>, start: nat, maxRetries: int) returns (f: PageFetch)
    ensures f == RetryPost(script, start, 0, maxRetries)
  {
    var response: Option<PostOutcome> := None;
    var delays: seq<nat> := [];
    var attempt: nat := 0;
    while attempt < maxRetries
      invariant attempt <= maxRetries || attempt == 0
      invariant response.Some? ==> response.value.Response? && response.value.status != StatusOk
      invariant RetryPost(script, start, 0, maxRetries) ==
                AfterFailures(attempt, delays, RetryPost(script, start + attempt, attempt, maxRetries))
      decreases maxRetries - attempt
    {
      var outcome := Post(script, start + attempt);
      ghost var before := delays;
      if outcome.Response? {
        response := Some(outcome);
        if outcome.status == StatusOk {
          break;
        } else if outcome.status == StatusTooManyRequests {
          delays := delays + [Pow2(attempt) * 1000];
        } else {
          delays := delays + [RetryDelay];
        }
      } else if attempt < maxRetries - 1 {
        delays := delays + [RetryDelay];
      }
      AfterFailuresCompose(attempt, before, 1, FailureDelay(outcome, attempt, maxRetries),
                           RetryPost(script, start + attempt + 1, attempt + 1, maxRetries));
      attempt := attempt + 1;
    }
    assert delays + [] == delays;
    if response.None? || response.value.status != StatusOk {
      f := PageFetch(None, attempt, delays);
    } else {
      f := PageFetch(Some(response.value.body), attempt + 1, delays);
    }
  }

  // ===========================================================================
  // The page walk
  // ===========================================================================

  /** Why the walk ended. */
  datatype StopReason = CookieFailed | PageFailed | BadJson | EmptyPage | ShortPage

  /**
   * A finished walk: every POST payload in order, every planned sleep, the raw offer lists of
   * the pages whose offers were kept, the collected offers and why the walk stopped.
   */
  datatype Walk = Walk(requests: seq<Payload>, delays: seq<nat>, pages: seq<seq<RawOffer>>, offers: seq<Offer>, stop: StopReason)

  function Repeat(p: Payload, n: nat): (r: seq<Payload>)
    ensures |r| == n
    ensures forall i :: 0 <= i < n ==> r[i] == p
  {
    seq(n, _ => p)
  }

  function PagePayload(productId: string, cityId: string, page: nat): Payload {
    Payload(OffersEndpoint + productId, cityId, PageLimit, page, true)
  }

  /** `acc` followed by the rest of a walk. */
  function Extend(acc: Walk, w: Walk): Walk {
    Walk(acc.requests + w.requests, acc.delays + w.delays, acc.pages + w.pages, acc.offers + w.offers, w.stop)
  }

  lemma ExtendAssociative(a: Walk, b: Walk, c: Walk)
    ensures Extend(Extend(a, b), c) == Extend(a, Extend(b, c))
  {
    assert (a.requests + b.requests) + c.requests == a.requests + (b.requests + c.requests);
    assert (a.delays + b.delays) + c.delays == a.delays + (b.delays + c.delays);
    assert (a.pages + b.pages) + c.pages == a.pages + (b.pages + c.pages);
    assert (a.offers + b.offers) + c.offers == a.offers + (b.offers + c.offers);
  }

  /** The page's retry loop got a full page of 50 or more offers: the walk goes on to the next page. */
  predicate Continues(f: PageFetch) {
    f.body.Some? && f.body.value.Parsed? && |f.body.value.offers| >= PageLimit
  }

  /** The offers of the kept pages, normalised and concatenated in page order. */
  function Collect(pages: seq<seq<RawOffer>>): seq<Offer> {
    if pages == [] then [] else Normalize(pages[0]) + Collect(pages[1..])
  }

  /** The walk's last page when it does not continue: `requests` are that page's POSTs. */
  function FinalPage(f: PageFetch, requests: seq<Payload>): (w: Walk)
    requires !Continues(f)
    ensures w.requests == requests && w.delays == f.delays && w.offers == Collect(w.pages)
    ensures w.stop == PageFailed <==> f.body.None?
    ensures w.stop == BadJson <==> f.body == Some(Malformed)
    ensures w.stop == EmptyPage <==> f.body == Some(Parsed([]))
    ensures w.stop == ShortPage <==> |w.pages| == 1
    ensures w.stop == ShortPage ==> w.pages == [f.body.value.offers] && 0 < |w.pages[0]| < PageLimit
    ensures w.stop != ShortPage ==> w.pages == []
  {
    match f.body
    case None => Walk(requests, f.delays, [], [], PageFailed)
    case Some(Malformed) => Walk(requests, f.delays, [], [], BadJson)
    case Some(Parsed(raw)) =>
      if raw == [] then Walk(requests, f.delays, [], [], EmptyPage)
      else
        assert Collect([raw]) == Normalize(raw) + Collect([]);
        Walk(requests, f.delays, [raw], Normalize(raw), ShortPage)
  }

  /** The walk from page `page` on, the next POST being `script[next]`. */
  function WalkFrom(script: seq<PostOutcome>, next: nat, page: nat, productId: string, cityId: string, maxRetries: int): (w: Walk)
    requires next <= |script|
    ensures w.stop != CookieFailed
    decreases |script| - next
  {
    var f := RetryPost(script, next, 0, maxRetries);
    var requests := Repeat(PagePayload(productId, cityId, page), f.used);
    if Continues(f) then
      var raw := f.body.value.offers;
      Extend(Walk(requests, f.delays + [PageDelay], [raw], Normalize(raw), ShortPage),
             WalkFrom(script, next + f.used, page + 1, productId, cityId, maxRetries))
    else FinalPage(f, requests)
  }

  /** Why `fetch_offers` raises: `re.search` found no product id or no city id in the URL. */
  datatype FetchError = NoProductId | NoCityId

  /** `fetch_offers(url, max_retries)`: the cookie GET, then the page walk. */
  function FetchOffersSpec(url: string, cookieOk: bool, script: seq<PostOutcome>, maxRetries: int): (r: Result<Walk, FetchError>)
    ensures ExtractProductId(url).None? <==> r == Err(NoProductId)
    ensures ExtractProductId(url).Some? && ExtractCityId(url).None? <==> r == Err(NoCityId)
    ensures r.Ok? && !cookieOk ==> r.value == Walk([], [], [], [], CookieFailed)
    ensures r.Ok? && cookieOk ==> r.value.stop != CookieFailed
  {
    var productId := ExtractProductId(url);
    var cityId := ExtractCityId(url);
    if productId.None? then Err(NoProductId)
    else if cityId.None? then Err(NoCityId)
    else if !cookieOk then Ok(Walk([], [], [], [], CookieFailed))
    else Ok(WalkFrom(script, 0, 0, productId.value, cityId.value, maxRetries))
  }

  /** `fetch_offers`: the two URL ids, the cookie GET, then the page walk. */
  method FetchOffers(url: string, cookieOk: bool, script: seq<PostOutcome>, maxRetries: int)
    returns (r: Result<Walk, FetchError>)
    ensures r == FetchOffersSpec(url, cookieOk, script, maxRetries)
  {
    var productId := ExtractProductId(url);
    if productId.None? {
      return Err(NoProductId);
    }
    var cityId := ExtractCityId(url);
    if cityId.None? {
      return Err(NoCityId);
    }
    if !cookieOk {
      return Ok(Walk([], [], [], [], CookieFailed));
    }
    var w := WalkPages(script, productId.value, cityId.value, maxRetries);
    r := Ok(w);
  }

  /** One page of the walk: its last page, or one kept page and the walk from the next. */
  lemma WalkFromStep(script: seq<PostOutcome>, next: nat, page: nat, productId: string, cityId: string, maxRetries: int,
                     f: PageFetch, requests: seq<Payload>)
    requires next <= |script|
    requires f == RetryPost(script, next, 0, maxRetries)
    requires requests == Repeat(PagePayload(productId, cityId, page), f.used)
    ensures !Continues(f) ==> WalkFrom(script, next, page, productId, cityId, maxRetries) == FinalPage(f, requests)
    ensures Continues(f) ==>
              (next + f.used <= |script| && f.used >= 1 &&
               WalkFrom(script, next, page, productId, cityId, maxRetries) ==
               Extend(Walk(requests, f.delays + [PageDelay], [f.body.value.offers], Normalize(f.body.value.offers), ShortPage),
                      WalkFrom(script, next + f.used, page + 1, productId, cityId, maxRetries)))
  {
  }

  /** The `while True` loop of `fetch_offers`: one page per iteration, each with its retry loop. */
  method WalkPages(script: seq<PostOutcome>, productId: string, cityId: string, maxRetries: int) returns (w: Walk)
    ensures w == WalkFrom(script, 0, 0, productId, cityId, maxRetries)
  {
    ghost var total := WalkFrom(script, 0, 0, productId, cityId, maxRetries);
    var acc := Walk([], [], [], [], PageFailed);
    var page: nat := 0;
    var next: nat := 0;
    while true
      invariant next <= |script|
      invariant Extend(acc, WalkFrom(script, next, page, productId, cityId, maxRetries)) == total
      decreases |script| - next
    {
      var f := PostWithRetry(script, next, maxRetries);
      var requests := Repeat(PagePayload(productId, cityId, page), f.used);
      WalkFromStep(script, next, page, productId, cityId, maxRetries, f, requests);
      if f.body.None? {
        assert FinalPage(f, requests) == Walk(requests, f.delays, [], [], PageFailed);
        acc := Extend(acc, Walk(requests, f.delays, [], [], PageFailed));
        break;
      }
      if f.body.value.Malformed? {
        assert FinalPage(f, requests) == Walk(requests, f.delays, [], [], BadJson);
        acc := Extend(acc, Walk(requests, f.delays, [], [], BadJson));
        break;
      }
      var raw := f.body.value.offers;
      if raw == [] {
        assert FinalPage(f, requests) == Walk(requests, f.delays, [], [], EmptyPage);
        acc := Extend(acc, Walk(requests, f.delays, [], [], EmptyPage));
        break;
      }
      if |raw| < PageLimit {
        var offers := AppendOffers(acc.offers, raw);
        assert FinalPage(f, requests) == Walk(requests, f.delays, [raw], Normalize(raw), ShortPage);
        acc := Walk(acc.requests + requests, acc.delays + f.delays, acc.pages + [raw], offers, ShortPage);
        break;
      }
      var head := Walk(requests, f.delays + [PageDelay], [raw], Normalize(raw), ShortPage);
      ExtendAssociative(acc, head, WalkFrom(script, next + f.used, page + 1, productId, cityId, maxRetries));
      var offers := AppendOffers(acc.offers, raw);
      acc := Walk(acc.requests + requests, acc.delays + (f.delays + [PageDelay]), acc.pages + [raw], offers, ShortPage);
      page := page + 1;
      next := next + f.used;
    }
    w := acc;
  }

  // ===========================================================================
  // What the retry loop does
  // ===========================================================================

  predicate IsOk(outcome: PostOutcome) {
    outcome.Response? && outcome.status == StatusOk
  }

  function MaxAttempts(maxRetries: int): nat {
    if maxRetries > 0 then maxRetries else 0
  }

  /**
   * The retry loop stopped at the first 200 and handed on its body, or made every remaining
   * attempt without one. Either way no POST before its last one was answered with 200.
   */
  predicate StopsAtFirstOk(script: seq<PostOutcome>, next: nat, attempt: nat, maxRetries: int, f: PageFetch) {
    && (forall k :: next <= k < next + f.used - 1 ==> !IsOk(Post(script, k)))
    && (f.body.Some? ==> f.used >= 1 && IsOk(Post(script, next + f.used - 1)) &&
                         f.body.value == Post(script, next + f.used - 1).body)
    && (f.body.None? ==> f.used == MaxAttempts(maxRetries - attempt) &&
                         forall k :: next <= k < next + f.used ==> !IsOk(Post(script, k)))
  }

  lemma {:induction false} RetryPostOutcome(script: seq<PostOutcome>, next: nat, attempt: nat, maxRetries: int)
    ensures StopsAtFirstOk(script, next, attempt, maxRetries, RetryPost(script, next, attempt, maxRetries))
    decreases maxRetries - attempt
  {
    if attempt < maxRetries && !IsOk(Post(script, next)) {
      RetryPostOutcome(script, next + 1, attempt + 1, maxRetries);
    }
  }

  /** The sleeps double: `2 ** attempt` seconds after each attempt. */
  predicate DoublingBackoff(delays: seq<nat>, attempt: nat) {
    forall i :: 0 <= i < |delays| ==> delays[i] == Pow2(attempt + i) * 1000
  }

  /** After nothing but 429s, the page fails with one doubling sleep per attempt. */
  lemma {:induction false} RetryBackoff(script: seq<PostOutcome>, next: nat, attempt: nat, maxRetries: int)
    requires forall k :: next <= k < next + MaxAttempts(maxRetries - attempt) ==>
               Post(script, k).Response? && Post(script, k).status == StatusTooManyRequests
    ensures RetryPost(script, next, attempt, maxRetries).body.None?
    ensures |RetryPost(script, next, attempt, maxRetries).delays| == MaxAttempts(maxRetries - attempt)
    ensures DoublingBackoff(RetryPost(script, next, attempt, maxRetries).delays, attempt)
    decreases maxRetries - attempt
  {
    if attempt < maxRetries {
      assert Post(script, next).status == StatusTooManyRequests;
      RetryBackoff(script, next + 1, attempt + 1, maxRetries);
      var rest := RetryPost(script, next + 1, attempt + 1, maxRetries);
      var f := RetryPost(script, next, attempt, maxRetries);
      assert f.delays == [Pow2(attempt) * 1000] + rest.delays;
      forall i | 1 <= i < |f.delays| ensures f.delays[i] == Pow2(attempt + i) * 1000 {
        assert f.delays[i] == rest.delays[i - 1];
      }
    }
  }

  /** Without a 429, every sleep the retry loop schedules is one second. */
  lemma {:induction false} RetryOneSecond(script: seq<PostOutcome>, next: nat, attempt: nat, maxRetries: int)
    requires forall k :: next <= k < next + MaxAttempts(maxRetries - attempt) ==>
               !(Post(script, k).Response? && Post(script, k).status == StatusTooManyRequests)
    ensures forall i :: 0 <= i < |RetryPost(script, next, attempt, maxRetries).delays| ==>
              RetryPost(script, next, attempt, maxRetries).delays[i] == RetryDelay
    decreases maxRetries - attempt
  {
    if attempt < maxRetries && !IsOk(Post(script, next)) {
      RetryOneSecond(script, next + 1, attempt + 1, maxRetries);
      var d := FailureDelay(Post(script, next), attempt, maxRetries);
      var rest := RetryPost(script, next + 1, attempt + 1, maxRetries);
      var f := RetryPost(script, next, attempt, maxRetries);
      assert f.delays == d + rest.delays;
      forall i | 0 <= i < |f.delays| ensures f.delays[i] == RetryDelay {
        if i >= |d| {
          assert f.delays[i] == rest.delays[i - |d|];
        }
      }
    }
  }

  /** After nothing but statuses other than 200 and 429, the page fails with a one-second sleep per attempt. */
  lemma {:induction false} RetryOtherStatus(script: seq<PostOutcome>, next: nat, attempt: nat, maxRetries: int)
    requires forall k :: next <= k < next + MaxAttempts(maxRetries - attempt) ==>
               && Post(script, k).Response?
               && Post(script, k).status != StatusOk && Post(script, k).status != StatusTooManyRequests
    ensures RetryPost(script, next, attempt, maxRetries).body.None?
    ensures RetryPost(script, next, attempt, maxRetries).used == MaxAttempts(maxRetries - attempt)
    ensures |RetryPost(script, next, attempt, maxRetries).delays| == MaxAttempts(maxRetries - attempt)
    decreases maxRetries - attempt
  {
    if attempt < maxRetries {
      assert Post(script, next).status != StatusOk;
      RetryOtherStatus(script, next + 1, attempt + 1, maxRetries);
    }
  }

  /**
   * After nothing but transport errors, the page fails with a sleep after every attempt but the
   * last.
   */
  lemma {:induction false} RetryTransportErrors(script: seq<PostOutcome>, next: nat, attempt: nat, maxRetries: int)
    requires forall k :: next <= k < next + MaxAttempts(maxRetries - attempt) ==> Post(script, k).TransportError?
    ensures RetryPost(script, next, attempt, maxRetries).body.None?
    ensures RetryPost(script, next, attempt, maxRetries).used == MaxAttempts(maxRetries - attempt)
    ensures |RetryPost(script, next, attempt, maxRetries).delays| ==
              if attempt < maxRetries then maxRetries - attempt - 1 else 0
    decreases maxRetries - attempt
  {
    if attempt < maxRetries {
      assert Post(script, next).TransportError?;
      RetryTransportErrors(script, next + 1, attempt + 1, maxRetries);
    }
  }

  // ===========================================================================
  // What the page walk does
  // ===========================================================================

  /**
   * Every kept page is non-empty and every one but the last held at least 50 offers (the
   * limit asked for; nothing caps a longer page).
   */
  predicate PagesFull(w: Walk) {
    && (forall i :: 0 <= i < |w.pages| ==> w.pages[i] != [])
    && (forall i :: 0 <= i < |w.pages| - 1 ==> |w.pages[i]| >= PageLimit)
  }

  lemma {:induction false} WalkPagesFull(script: seq<PostOutcome>, next: nat, page: nat, productId: string, cityId: string, maxRetries: int)
    requires next <= |script|
    ensures PagesFull(WalkFrom(script, next, page, productId, cityId, maxRetries))
    decreases |script| - next
  {
    var f := RetryPost(script, next, 0, maxRetries);
    var w := WalkFrom(script, next, page, productId, cityId, maxRetries);
    if Continues(f) {
      WalkPagesFull(script, next + f.used, page + 1, productId, cityId, maxRetries);
      var rest := WalkFrom(script, next + f.used, page + 1, productId, cityId, maxRetries);
      var raw := f.body.value.offers;
      ContinuedFull(Walk(Repeat(PagePayload(productId, cityId, page), f.used), f.delays + [PageDelay], [raw], Normalize(raw), ShortPage), rest);
    }
  }

  /** A full page followed by a walk whose pages are full gives a walk whose pages are full. */
  lemma ContinuedFull(head: Walk, rest: Walk)
    requires |head.pages| == 1 && |head.pages[0]| >= PageLimit
    requires PagesFull(rest)
    ensures PagesFull(Extend(head, rest))
  {
    var w := Extend(head, rest);
    forall i | 1 <= i < |w.pages| ensures w.pages[i] == rest.pages[i - 1] {
    }
  }

  /** The last kept page held fewer than 50 offers exactly when the walk stopped at a short page. */
  predicate StopsShortExactly(w: Walk) {
    w.stop == ShortPage <==> |w.pages| > 0 && |w.pages[|w.pages| - 1]| < PageLimit
  }

  lemma {:induction false} WalkStopsShort(script: seq<PostOutcome>, next: nat, page: nat, productId: string, cityId: string, maxRetries: int)
    requires next <= |script|
    ensures StopsShortExactly(WalkFrom(script, next, page, productId, cityId, maxRetries))
    decreases |script| - next
  {
    var f := RetryPost(script, next, 0, maxRetries);
    if Continues(f) {
      WalkStopsShort(script, next + f.used, page + 1, productId, cityId, maxRetries);
      var w := WalkFrom(script, next, page, productId, cityId, maxRetries);
      var rest := WalkFrom(script, next + f.used, page + 1, productId, cityId, maxRetries);
      assert w.pages == [f.body.value.offers] + rest.pages;
      if rest.pages != [] {
        assert w.pages[|w.pages| - 1] == rest.pages[|rest.pages| - 1];
      }
    }
  }

  lemma CollectConcat(a: seq<seq<RawOffer>>, b: seq<seq<RawOffer>>)
    requires |a| == 1
    ensures Collect(a + b) == Normalize(a[0]) + Collect(b)
  {
    assert (a + b)[1..] == b;
  }

  /** `fetch_offers` returns the kept pages' offers, normalised, in page order and server order. */
  lemma {:induction false} WalkOffersInOrder(script: seq<PostOutcome>, next: nat, page: nat, productId: string, cityId: string, maxRetries: int)
    requires next <= |script|
    ensures WalkFrom(script, next, page, productId, cityId, maxRetries).offers ==
            Collect(WalkFrom(script, next, page, productId, cityId, maxRetries).pages)
    decreases |script| - next
  {
    var f := RetryPost(script, next, 0, maxRetries);
    if Continues(f) {
      WalkOffersInOrder(script, next + f.used, page + 1, productId, cityId, maxRetries);
      var rest := WalkFrom(script, next + f.used, page + 1, productId, cityId, maxRetries);
      CollectConcat([f.body.value.offers], rest.pages);
    }
  }

  function CountPage(requests: seq<Payload>, p: nat): nat {
    if requests == [] then 0
    else (if requests[0].page == p then 1 else 0) + CountPage(requests[1..], p)
  }

  lemma {:induction false} CountPageConcat(a: seq<Payload>, b: seq<Payload>, p: nat)
    ensures CountPage(a + b, p) == CountPage(a, p) + CountPage(b, p)
    decreases |a|
  {
    if a != [] {
      assert (a + b)[1..] == a[1..] + b;
      CountPageConcat(a[1..], b, p);
    } else {
      assert a + b == b;
    }
  }

  lemma {:induction false} CountPageRepeat(q: Payload, n: nat, p: nat)
    ensures CountPage(Repeat(q, n), p) == if q.page == p then n else 0
    decreases n
  {
    if n > 0 {
      assert Repeat(q, n)[1..] == Repeat(q, n - 1);
      CountPageRepeat(q, n - 1, p);
    }
  }

  lemma {:induction false} CountPageAbsent(requests: seq<Payload>, p: nat)
    requires forall i :: 0 <= i < |requests| ==> requests[i].page != p
    ensures CountPage(requests, p) == 0
    decreases |requests|
  {
    if requests != [] {
      CountPageAbsent(requests[1..], p);
    }
  }

  /** Consecutive POSTs ask for the same page or the next one. */
  predicate NoGaps(requests: seq<Payload>) {
    forall i :: 0 <= i < |requests| - 1 ==>
      requests[i + 1].page == requests[i].page || requests[i + 1].page == requests[i].page + 1
  }

  /**
   * The POSTs go to the product's endpoint with the city id and a limit of 50, for the pages
   * `page`, `page + 1`, ... in order without gaps, up to one past the last kept page unless the
   * walk stopped at a short page.
   */
  predicate RequestsInOrder(w: Walk, productId: string, cityId: string, page: nat) {
    && (forall i :: 0 <= i < |w.requests| ==> w.requests[i] == PagePayload(productId, cityId, w.requests[i].page))
    && (|w.requests| > 0 ==> w.requests[0].page == page)
    && NoGaps(w.requests)
    && (forall i :: 0 <= i < |w.requests| ==> page <= w.requests[i].page)
    && (|w.requests| > 0 ==>
          w.requests[|w.requests| - 1].page == page + |w.pages| - (if w.stop == ShortPage then 1 else 0))
  }

  lemma {:induction false} WalkRequestOrder(script: seq<PostOutcome>, next: nat, page: nat, productId: string, cityId: string, maxRetries: int)
    requires next <= |script|
    ensures RequestsInOrder(WalkFrom(script, next, page, productId, cityId, maxRetries), productId, cityId, page)
    decreases |script| - next
  {
    var f := RetryPost(script, next, 0, maxRetries);
    var here := Repeat(PagePayload(productId, cityId, page), f.used);
    WalkFromStep(script, next, page, productId, cityId, maxRetries, f, here);
    if Continues(f) {
      WalkRequestOrder(script, next + f.used, page + 1, productId, cityId, maxRetries);
      WalkMakesRequests(script, next + f.used, page + 1, productId, cityId, maxRetries);
      var rest := WalkFrom(script, next + f.used, page + 1, productId, cityId, maxRetries);
      var raw := f.body.value.offers;
      ContinuedInOrder(Walk(here, f.delays + [PageDelay], [raw], Normalize(raw), ShortPage), rest, productId, cityId, page);
    } else {
      FinalInOrder(f, here, productId, cityId, page);
    }
  }

  /** With at least one attempt allowed, every walk makes at least one POST. */
  lemma WalkMakesRequests(script: seq<PostOutcome>, next: nat, page: nat, productId: string, cityId: string, maxRetries: int)
    requires next <= |script| && maxRetries >= 1
    ensures |WalkFrom(script, next, page, productId, cityId, maxRetries).requests| >= 1
  {
    var f := RetryPost(script, next, 0, maxRetries);
    assert |WalkFrom(script, next, page, productId, cityId, maxRetries).requests| >= f.used;
  }

  /** The POSTs of a last page are in order. */
  lemma FinalInOrder(f: PageFetch, here: seq<Payload>, productId: string, cityId: string, page: nat)
    requires !Continues(f)
    requires here == Repeat(PagePayload(productId, cityId, page), f.used)
    ensures RequestsInOrder(FinalPage(f, here), productId, cityId, page)
  {
  }

  /** One kept page's POSTs followed by a walk in order from the next page is a walk in order. */
  lemma ContinuedInOrder(head: Walk, rest: Walk, productId: string, cityId: string, page: nat)
    requires |head.requests| >= 1 && |head.pages| == 1
    requires head.requests == Repeat(PagePayload(productId, cityId, page), |head.requests|)
    requires |rest.requests| > 0 && RequestsInOrder(rest, productId, cityId, page + 1)
    ensures RequestsInOrder(Extend(head, rest), productId, cityId, page)
  {
    var w := Extend(head, rest);
    var n := |head.requests|;
    RequestsJoin(head.requests, rest.requests, page, n);
    forall i | n <= i < |w.requests|
      ensures w.requests[i] == rest.requests[i - n]
    {
    }
    assert w.requests[|w.requests| - 1] == rest.requests[|rest.requests| - 1];
  }

  /** POSTs of `page` followed by POSTs that start at `page + 1` and never skip a page. */
  lemma RequestsJoin(here: seq<Payload>, rest: seq<Payload>, page: nat, n: nat)
    requires n >= 1 && |here| == n && forall i :: 0 <= i < n ==> here[i].page == page
    requires |rest| > 0 ==> rest[0].page == page + 1
    requires NoGaps(rest)
    ensures NoGaps(here + rest)
  {
    var all := here + rest;
    forall i | 0 <= i < |all| - 1
      ensures all[i + 1].page == all[i].page || all[i + 1].page == all[i].page + 1
    {
      if i + 1 < n {
      } else if i + 1 == n {
        assert all[i + 1] == rest[0];
      } else {
        assert all[i + 1] == rest[i + 1 - n] && all[i] == rest[i - n];
      }
    }
  }

  /** No page is POSTed more than `max_retries` times. */
  lemma {:induction false} WalkAttemptsPerPage(script: seq<PostOutcome>, next: nat, page: nat, productId: string, cityId: string, maxRetries: int, p: nat)
    requires next <= |script|
    ensures CountPage(WalkFrom(script, next, page, productId, cityId, maxRetries).requests, p) <= MaxAttempts(maxRetries)
    decreases |script| - next
  {
    var f := RetryPost(script, next, 0, maxRetries);
    var w := WalkFrom(script, next, page, productId, cityId, maxRetries);
    var here := Repeat(PagePayload(productId, cityId, page), f.used);
    CountPageRepeat(PagePayload(productId, cityId, page), f.used, p);
    if Continues(f) {
      var rest := WalkFrom(script, next + f.used, page + 1, productId, cityId, maxRetries);
      assert w.requests == here + rest.requests;
      if p == page {
        WalkRequestOrder(script, next + f.used, page + 1, productId, cityId, maxRetries);
      } else {
        WalkAttemptsPerPage(script, next + f.used, page + 1, productId, cityId, maxRetries, p);
      }
      ContinuedCount(here, rest, productId, cityId, page, maxRetries, p);
    } else {
      assert w.requests == here;
    }
  }

  /** One page's POSTs followed by the rest of the walk: each page is still POSTed at most `max_retries` times. */
  lemma ContinuedCount(here: seq<Payload>, rest: Walk, productId: string, cityId: string, page: nat, maxRetries: int, p: nat)
    requires CountPage(here, p) <= MaxAttempts(maxRetries)
    requires p != page ==> CountPage(here, p) == 0 && CountPage(rest.requests, p) <= MaxAttempts(maxRetries)
    requires p == page ==> RequestsInOrder(rest, productId, cityId, page + 1)
    ensures CountPage(here + rest.requests, p) <= MaxAttempts(maxRetries)
  {
    CountPageConcat(here, rest.requests, p);
    if p == page {
      CountPageAbsent(rest.requests, p);
    }
  }

  /** With `max_retries <= 0` the walk makes no POST at all and ends in failure. */
  lemma NoRetriesNoRequests(script: seq<PostOutcome>, next: nat, page: nat, productId: string, cityId: string, maxRetries: int)
    requires next <= |script| && maxRetries <= 0
    ensures WalkFrom(script, next, page, productId, cityId, maxRetries) == Walk([], [], [], [], PageFailed)
  {
    assert Repeat(PagePayload(productId, cityId, page), 0) == [];
  }

  /** The i-th POST asks for page `page + i`: there is one POST per page. */
  predicate OnePostPerPage(requests: seq<Payload>, page: nat) {
    forall i :: 0 <= i < |requests| ==> requests[i].page == page + i
  }

  /** With `max_retries == 1` every page is POSTed exactly once. */
  lemma {:induction false} SingleAttemptPerPage(script: seq<PostOutcome>, next: nat, page: nat, productId: string, cityId: string)
    requires next <= |script|
    ensures OnePostPerPage(WalkFrom(script, next, page, productId, cityId, 1).requests, page)
    decreases |script| - next
  {
    var f := RetryPost(script, next, 0, 1);
    var w := WalkFrom(script, next, page, productId, cityId, 1);
    assert f.used == 1;
    if Continues(f) {
      SingleAttemptPerPage(script, next + 1, page + 1, productId, cityId);
      var rest := WalkFrom(script, next + 1, page + 1, productId, cityId, 1);
      assert w.requests == Repeat(PagePayload(productId, cityId, page), 1) + rest.requests;
      forall i | 1 <= i < |w.requests| ensures w.requests[i].page == page + i {
        assert w.requests[i] == rest.requests[i - 1];
      }
    } else {
      assert w.requests == Repeat(PagePayload(productId, cityId, page), 1);
    }
  }

  /**
   * Two 429s, then a 200 with ten offers: three POSTs of page 0, sleeps of one and two seconds,
   * and the walk ends at that short page with its ten offers.
   */
  lemma RateLimitedThenShortPage(productId: string, cityId: string, raw: seq<RawOffer>)
    requires |raw| == 10
    ensures WalkFrom([Response(429, Malformed), Response(429, Malformed), Response(200, Parsed(raw))], 0, 0, productId, cityId, DefaultMaxRetries) ==
            Walk(Repeat(PagePayload(productId, cityId, 0), 3), [1000, 2000], [raw], Normalize(raw), ShortPage)
  {
    var script := [Response(429, Malformed), Response(429, Malformed), Response(200, Parsed(raw))];
    var f2 := RetryPost(script, 2, 2, 3);
    assert f2 == PageFetch(Some(Parsed(raw)), 1, []);
    var f1 := RetryPost(script, 1, 1, 3);
    assert f1 == PageFetch(Some(Parsed(raw)), 2, [2000]);
    var f0 := RetryPost(script, 0, 0, 3);
    assert f0 == PageFetch(Some(Parsed(raw)), 3, [1000, 2000]);
  }
}
