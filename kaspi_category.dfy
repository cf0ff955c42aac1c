/**
 * Model of `get_category_path` in src/services/kaspi_parser.py: up to `max_retries` GETs of
 * the product page; from the first page with breadcrumbs, the labels other than the home
 * links are joined with " > ". Each GET is an input outcome: a response with its status and,
 * per breadcrumb selector in the order tried, the stripped texts of the elements it matched;
 * or the exception `requests.get` raised. Sleeps are recorded in milliseconds.
 */
module KaspiCategory {
  import opened Wrappers
  import opened Text
  import KaspiOffers

  /** One GET: a response, or the kind of exception it raised. */
  datatype GetOutcome =
    | Page(status: int, selectorMatches: seq<seq<string>>)
    | Timeout
    | ConnectionError
    | OtherRequestError    // any other `requests.exceptions.RequestException`
    | Unexpected           // any other exception while handling the attempt

  /** The returned path, plus the GETs made and the sleeps taken in milliseconds. */
  datatype CategoryRun = CategoryRun(path: Option<string>, gets: nat, delays: seq<nat>)

  /** The breadcrumb selectors, in the order they are tried. */
  const Selectors: seq<string> := [
    "div.breadcrumbs a.breadcrumbs__item", ".breadcrumbs a", "nav.breadcrumbs a",
    ".breadcrumbs__item", "a.breadcrumbs__link", ".breadcrumb a"]

  /** Labels that are not categories, compared in lower case. */
  const HomeLabels: seq<string> := ["главная", "home", "kaspi.kz"]

  const Separator: string := " > "
  const DefaultMaxRetries: int := 3
  const StatusOk: int := 200
  const StatusTooManyRequests: int := 429

  /** The outcome of GET number `i`; GETs beyond the given outcomes time out. */
  function OutcomeAt(outcomes: seq<GetOutcome>, i: nat): GetOutcome {
    if i < |outcomes| then outcomes[i] else Timeout
  }

  // ===========================================================================
  // Breadcrumbs
  // ===========================================================================

  /** The matches of the first selector, from selector `i` on, that matched anything; `[]` if none did. */
  function FirstMatches(matches: seq<seq<string>>, i: nat): (bc: seq<string>)
    requires i <= |Selectors|
    ensures bc != [] ==> exists k :: i <= k < |Selectors| && k < |matches| && matches[k] == bc
    ensures bc == [] <==> forall k :: i <= k < |Selectors| && k < |matches| ==> matches[k] == []
    decreases |Selectors| - i
  {
    if i == |Selectors| || i >= |matches| then []
    else if matches[i] != [] then matches[i]
    else FirstMatches(matches, i + 1)
  }

  /** Non-empty breadcrumbs come from selector `k`, and every selector before `k` matched nothing. */
  lemma {:induction false} FirstMatchesIsFirst(matches: seq<seq<string>>, i: nat) returns (k: nat)
    requires i <= |Selectors| && FirstMatches(matches, i) != []
    ensures i <= k < |Selectors| && k < |matches| && matches[k] == FirstMatches(matches, i)
    ensures forall j :: i <= j < k ==> matches[j] == []
    decreases |Selectors| - i
  {
    if matches[i] != [] {
      k := i;
    } else {
      k := FirstMatchesIsFirst(matches, i + 1);
    }
  }

  function Breadcrumbs(matches: seq<seq<string>>): seq<string> {
    FirstMatches(matches, 0)
  }

  /** A breadcrumb label that names a category: non-empty and not a home link. */
  predicate IsCategoryLabel(text: string) {
    text != [] && Lower(text) !in HomeLabels
  }

  /** The category labels of the breadcrumbs, in order. */
  function CategoryItems(bc: seq<string>): (items: seq<string>)
    ensures |items| <= |bc|
  {
    if bc == [] then []
    else (if IsCategoryLabel(bc[0]) then [bc[0]] else []) + CategoryItems(bc[1..])
  }

  /** The kept labels are exactly the category labels among the breadcrumbs. */
  lemma {:induction false} CategoryItemsMembers(bc: seq<string>)
    ensures forall l :: l in CategoryItems(bc) <==> l in bc && IsCategoryLabel(l)
  {
    if bc != [] {
      CategoryItemsMembers(bc[1..]);
      assert forall l :: l in bc <==> l == bc[0] || l in bc[1..];
    }
  }

  // ===========================================================================
  // The attempt loop
  // ===========================================================================

  /** `rest` preceded by one failed GET that slept `pause`. */
  function Retried(pause: seq<nat>, rest: CategoryRun): CategoryRun {
    CategoryRun(rest.path, rest.gets + 1, pause + rest.delays)
  }

  /**
   * The sleep after a failed GET at attempt `attempt`: `2 ** attempt` seconds after a 429
   * (even after the last attempt), `3 + attempt` seconds after a 403 or 503, three seconds
   * after a connection error and two after anything else; none after the last attempt.
   */
  function Backoff(outcome: GetOutcome, attempt: nat, maxRetries: int): seq<nat> {
    var last := attempt >= maxRetries - 1;
    if outcome.Page? && outcome.status == StatusTooManyRequests then [KaspiOffers.Pow2(attempt) * 1000]
    else if last then []
    else if outcome.Page? && (outcome.status == 403 || outcome.status == 503) then [(3 + attempt) * 1000]
    else if outcome.ConnectionError? then [3000]
    else [2000]
  }

  /** What one attempt does: return from the function, or go on to the next attempt after `pause`. */
  datatype Step = Return(path: Option<string>) | Sleep(pause: seq<nat>)

  /** One pass of the loop body, on the outcome of GET number `attempt`. */
  function AttemptStep(outcome: GetOutcome, attempt: nat, maxRetries: int): (s: Step)
    ensures s.Return? && s.path.Some? ==> s.path.value != []
  {
    if outcome.Page? && outcome.status == StatusOk then
      var bc := Breadcrumbs(outcome.selectorMatches);
      var items := CategoryItems(bc);
      if bc == [] && attempt >= maxRetries - 1 then Return(None)
      else if items != [] then
        assert items[0] != [] by {
          CategoryItemsMembers(bc);
          assert items[0] in items;
        }
        Return(Some(Join(items, Separator)))
      else Sleep(Backoff(outcome, attempt, maxRetries))
    else Sleep(Backoff(outcome, attempt, maxRetries))
  }

  /** The attempts `attempt`, `attempt + 1`, ... of the loop. */
  function CategoryFrom(outcomes: seq<GetOutcome>, attempt: nat, maxRetries: int): (r: CategoryRun)
    ensures r.gets <= if attempt < maxRetries then maxRetries - attempt else 0
    ensures r.path.Some? ==> r.path.value != []
    decreases maxRetries - attempt
  {
    if attempt >= maxRetries then CategoryRun(None, 0, [])
    else
      match AttemptStep(OutcomeAt(outcomes, attempt), attempt, maxRetries)
      case Return(path) => CategoryRun(path, 1, [])
      case Sleep(pause) => Retried(pause, CategoryFrom(outcomes, attempt + 1, maxRetries))
  }

  /** `rest` preceded by `n` failed GETs that slept `delays`. */
  function PrefixedBy(n: nat, delays: seq<nat>, rest: CategoryRun): CategoryRun {
    CategoryRun(rest.path, rest.gets + n, delays + rest.delays)
  }

  lemma PrefixedByStep(n: nat, before: seq<nat>, pause: seq<nat>, rest: CategoryRun)
    ensures PrefixedBy(n, before, Retried(pause, rest)) == PrefixedBy(n + 1, before + pause, rest)
  {
    assert before + (pause + rest.delays) == (before + pause) + rest.delays;
  }

  /** `get_category_path`: `for attempt in range(max_retries)`, one GET per attempt. */
  method GetCategoryPath(outcomes: seq<GetOutcome>, maxRetries: int) returns (r: CategoryRun)
    ensures r == CategoryFrom(outcomes, 0, maxRetries)
  {
    var delays: seq<nat> := [];
    var attempt: nat := 0;
    while attempt < maxRetries
      invariant attempt <= maxRetries || attempt == 0
      invariant CategoryFrom(outcomes, 0, maxRetries) == PrefixedBy(attempt, delays, CategoryFrom(outcomes, attempt, maxRetries))
      decreases maxRetries - attempt
    {
      var done, path, pause := Attempt(OutcomeAt(outcomes, attempt), attempt, maxRetries);
      if done {
        assert delays + [] == delays;
        return CategoryRun(path, attempt + 1, delays);
      }
      PrefixedByStep(attempt, delays, pause, CategoryFrom(outcomes, attempt + 1, maxRetries));
      delays := delays + pause;
      attempt := attempt + 1;
    }
    assert delays + [] == delays;
    r := CategoryRun(None, attempt, delays);
  }

  /** The body of the loop with its exception handlers: returns `done` when the function returns. */
  method Attempt(outcome: GetOutcome, attempt: nat, maxRetries: int) returns (done: bool, path: Option<string>, pause: seq<nat>)
    ensures done ==> AttemptStep(outcome, attempt, maxRetries) == Return(path)
    ensures !done ==> AttemptStep(outcome, attempt, maxRetries) == Sleep(pause)
  {
    var last := attempt >= maxRetries - 1;
    done, path, pause := false, None, [];
    match outcome {
      case Page(status, matches) =>
        if status == StatusOk {
          var breadcrumbs := FindBreadcrumbs(matches);
          if breadcrumbs == [] {
            if !last {
              pause := [2000];
            } else {
              done := true;
            }
          } else {
            var items := FilterLabels(breadcrumbs);
            if items != [] {
              done, path := true, Some(Join(items, Separator));
            } else if !last {
              pause := [2000];
            }
          }
        } else if status == StatusTooManyRequests {
          pause := [KaspiOffers.Pow2(attempt) * 1000];
        } else if status == 403 || status == 503 {
          if !last {
            pause := [(3 + attempt) * 1000];
          }
        } else if !last {
          pause := [2000];
        }
      case Timeout =>
        if !last {
          pause := [2000];
        }
      case ConnectionError =>
        if !last {
          pause := [3000];
        }
      case OtherRequestError =>
        if !last {
          pause := [2000];
        }
      case Unexpected =>
        if !last {
          pause := [2000];
        }
    }
  }

  /** The loop over the selectors: the matches of the first one that matched anything. */
  method FindBreadcrumbs(matches: seq<seq<string>>) returns (breadcrumbs: seq<string>)
    ensures breadcrumbs == Breadcrumbs(matches)
  {
    breadcrumbs := [];
    var i := 0;
    while i < |Selectors|
      invariant 0 <= i <= |Selectors|
      invariant breadcrumbs == [] && FirstMatches(matches, 0) == FirstMatches(matches, i)
    {
      breadcrumbs := if i < |matches| then matches[i] else [];
      if breadcrumbs != [] {
        return;
      }
      i := i + 1;
    }
  }

  /** The loop over breadcrumb elements that keeps the category labels. */
  method FilterLabels(breadcrumbs: seq<string>) returns (items: seq<string>)
    ensures items == CategoryItems(breadcrumbs)
  {
    items := [];
    var i := 0;
    while i < |breadcrumbs|
      invariant 0 <= i <= |breadcrumbs|
      invariant items + CategoryItems(breadcrumbs[i..]) == CategoryItems(breadcrumbs)
    {
      var text := breadcrumbs[i];
      assert breadcrumbs[i..][1..] == breadcrumbs[i + 1..];
      if text != [] && Lower(text) !in HomeLabels {
        items := items + [text];
      }
      i := i + 1;
    }
  }

  // ===========================================================================
  // What the loop returns
  // ===========================================================================

  /** GET number `attempt` answers 200 with breadcrumbs among which a category label remains. */
  predicate Yields(outcomes: seq<GetOutcome>, attempt: nat) {
    var o := OutcomeAt(outcomes, attempt);
    o.Page? && o.status == StatusOk && CategoryItems(Breadcrumbs(o.selectorMatches)) != []
  }

  /** The path the loop returns at attempt `k` when it yields. */
  function PathAt(outcomes: seq<GetOutcome>, k: nat): string
    requires OutcomeAt(outcomes, k).Page?
  {
    Join(CategoryItems(Breadcrumbs(OutcomeAt(outcomes, k).selectorMatches)), Separator)
  }

  /** A path is returned exactly when some attempt within `max_retries` yields. */
  lemma {:induction false} PathIffYield(outcomes: seq<GetOutcome>, attempt: nat, maxRetries: int)
    ensures CategoryFrom(outcomes, attempt, maxRetries).path.Some? <==>
            exists k :: attempt <= k < maxRetries && Yields(outcomes, k)
    decreases maxRetries - attempt
  {
    if attempt < maxRetries {
      PathIffYield(outcomes, attempt + 1, maxRetries);
      StepOfYield(outcomes, attempt, maxRetries);
    }
  }

  /** The path returned is that of the first attempt that yields, after that many GETs. */
  lemma {:induction false} PathIsFirstYield(outcomes: seq<GetOutcome>, attempt: nat, maxRetries: int, k: nat)
    requires attempt <= k < maxRetries && Yields(outcomes, k)
    requires forall j :: attempt <= j < k ==> !Yields(outcomes, j)
    ensures CategoryFrom(outcomes, attempt, maxRetries).path == Some(PathAt(outcomes, k))
    ensures CategoryFrom(outcomes, attempt, maxRetries).gets == k - attempt + 1
    decreases maxRetries - attempt
  {
    StepOfYield(outcomes, attempt, maxRetries);
    if attempt < k {
      PathIsFirstYield(outcomes, attempt + 1, maxRetries, k);
      assert attempt < maxRetries - 1;
    }
  }

  /** An attempt returns a path exactly when it yields; otherwise it sleeps or returns `None`. */
  lemma StepOfYield(outcomes: seq<GetOutcome>, attempt: nat, maxRetries: int)
    ensures Yields(outcomes, attempt) ==>
              AttemptStep(OutcomeAt(outcomes, attempt), attempt, maxRetries) == Return(Some(PathAt(outcomes, attempt)))
    ensures !Yields(outcomes, attempt) ==>
              AttemptStep(OutcomeAt(outcomes, attempt), attempt, maxRetries) == Return(None) ||
              AttemptStep(OutcomeAt(outcomes, attempt), attempt, maxRetries).Sleep?
  {
    var o := OutcomeAt(outcomes, attempt);
    if o.Page? && o.status == StatusOk && Breadcrumbs(o.selectorMatches) == [] {
      assert CategoryItems(Breadcrumbs(o.selectorMatches)) == [];
    }
  }

  /** Keeping the category labels of two runs of breadcrumbs is keeping them in each, in order. */
  lemma {:induction false} CategoryItemsConcat(a: seq<string>, b: seq<string>)
    ensures CategoryItems(a + b) == CategoryItems(a) + CategoryItems(b)
    decreases |a|
  {
    if a == [] {
      assert a + b == b;
    } else {
      assert (a + b)[1..] == a[1..] + b;
      CategoryItemsConcat(a[1..], b);
      var head := if IsCategoryLabel(a[0]) then [a[0]] else [];
      assert CategoryItems(a + b) == head + CategoryItems(a[1..] + b);
      assert head + (CategoryItems(a[1..]) + CategoryItems(b)) == (head + CategoryItems(a[1..])) + CategoryItems(b);
    }
  }

  /** Nothing but 429s: every attempt is made and the sleeps double, `2 ** attempt` seconds each. */
  lemma {:induction false} RateLimitedThroughout(outcomes: seq<GetOutcome>, attempt: nat, maxRetries: int)
    requires forall k :: attempt <= k < maxRetries ==>
               OutcomeAt(outcomes, k).Page? && OutcomeAt(outcomes, k).status == StatusTooManyRequests
    ensures CategoryFrom(outcomes, attempt, maxRetries).path.None?
    ensures CategoryFrom(outcomes, attempt, maxRetries).gets == (if attempt < maxRetries then maxRetries - attempt else 0)
    ensures |CategoryFrom(outcomes, attempt, maxRetries).delays| == CategoryFrom(outcomes, attempt, maxRetries).gets
    ensures forall i :: 0 <= i < |CategoryFrom(outcomes, attempt, maxRetries).delays| ==>
              CategoryFrom(outcomes, attempt, maxRetries).delays[i] == KaspiOffers.Pow2(attempt + i) * 1000
    decreases maxRetries - attempt
  {
    if attempt < maxRetries {
      RateLimitedThroughout(outcomes, attempt + 1, maxRetries);
      var r := CategoryFrom(outcomes, attempt, maxRetries);
      var rest := CategoryFrom(outcomes, attempt + 1, maxRetries);
      assert r.delays == [KaspiOffers.Pow2(attempt) * 1000] + rest.delays;
      forall i | 1 <= i < |r.delays| ensures r.delays[i] == KaspiOffers.Pow2(attempt + i) * 1000 {
        assert r.delays[i] == rest.delays[i - 1];
      }
    }
  }

  /** Breadcrumbs "Главная", "Электроника", "Смартфоны" give the path "Электроника > Смартфоны". */
  lemma BreadcrumbExample()
    ensures Join(CategoryItems(["Главная", "Электроника", "Смартфоны"]), Separator) == "Электроника > Смартфоны"
  {
    var bc := ["Главная", "Электроника", "Смартфоны"];
    assert !IsCategoryLabel("Главная") by {
      assert Lower("Главная") == "главная";
    }
    assert IsCategoryLabel("Электроника") by {
      assert Lower("Электроника")[0] == 'э';
    }
    assert IsCategoryLabel("Смартфоны") by {
      assert Lower("Смартфоны")[0] == 'с';
    }
    assert bc[1..] == ["Электроника", "Смартфоны"];
    assert bc[1..][1..] == ["Смартфоны"];
    assert CategoryItems(bc) == ["Электроника", "Смартфоны"];
  }
}
