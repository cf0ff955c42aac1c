/**
 * Model of the attempt loop of `parse_kaspi_rating_playwright` in
 * src/services/kaspi_parser.py. The browser is replaced by inputs: whether the page loaded,
 * and one snapshot of the page per attempt (whether the `.item__rating` selector appeared in
 * time and what the rating block holds). The rating is kept as the integer code found in the
 * span's classes; the source divides it by 10.
 */
module KaspiRating {
  import opened Wrappers
  import opened Text

  /** The parts of the `.item__rating` block the function reads. */
  datatype RatingBlock = RatingBlock(
    spanClasses: Option<seq<string>>,   // classes of `span[class*="rating _"]`, if that span exists
    reviewsText: Option<string>)        // stripped text of `.item__rating-link span`, if it exists

  /**
   * One attempt's view of the page: whether the selector wait succeeded and the block found in
   * the HTML, if any; or an exception raised while reading the page.
   */
  datatype Snapshot = Snapshot(selectorAppeared: bool, block: Option<RatingBlock>) | Crashed

  /** The returned dictionary plus the attempts made and the pauses taken, in milliseconds. */
  datatype RatingRun = RatingRun(rating: Option<nat>, reviewsCount: Option<nat>, attempts: nat, delays: seq<nat>)

  const PauseMs: nat := 2000
  const DefaultMaxRetries: int := 3

  /** The snapshot of attempt `i`; attempts beyond the given snapshots see an empty page. */
  function SnapshotAt(snaps: seq<Snapshot>, i: nat): Snapshot {
    if i < |snaps| then snaps[i] else Snapshot(false, None)
  }

  // ===========================================================================
  // The two regex searches
  // ===========================================================================

  /** `re.search(r'_(\d+)', s)` matches at `i`. */
  predicate UnderscoreDigitAt(s: string, i: nat) {
    i + 1 < |s| && s[i] == '_' && IsDigit(s[i + 1])
  }

  /** The first position at or after `i` where `_(\d+)` matches, or `|s|`. */
  function FirstUnderscoreDigit(s: string, i: nat): (j: nat)
    requires i <= |s|
    ensures i <= j <= |s|
    ensures j < |s| ==> UnderscoreDigitAt(s, j)
    ensures forall k :: i <= k < j ==> !UnderscoreDigitAt(s, k)
    decreases |s| - i
  {
    if i == |s| || UnderscoreDigitAt(s, i) then i else FirstUnderscoreDigit(s, i + 1)
  }

  /** `int(re.search(r'_(\d+)', s).group(1))`, or `None` without a match. */
  function UnderscoreNumber(s: string): (n: Option<nat>)
    ensures n.None? <==> forall k :: 0 <= k < |s| ==> !UnderscoreDigitAt(s, k)
  {
    var j := FirstUnderscoreDigit(s, 0);
    if j == |s| then None
    else
      var digits := s[j + 1..];
      Some(DecimalValue(digits[..DigitRun(digits)]))
  }

  /** The first position at or after `i` holding a digit, or `|s|`. */
  function FirstDigit(s: string, i: nat): (j: nat)
    requires i <= |s|
    ensures i <= j <= |s|
    ensures j < |s| ==> IsDigit(s[j])
    ensures forall k :: i <= k < j ==> !IsDigit(s[k])
    decreases |s| - i
  {
    if i == |s| || IsDigit(s[i]) then i else FirstDigit(s, i + 1)
  }

  /** `int(re.search(r"(\d+)", s).group(1))`, or `None` without a digit. */
  function FirstNumber(s: string): (n: Option<nat>)
    ensures n.None? <==> forall k :: 0 <= k < |s| ==> !IsDigit(s[k])
  {
    var j := FirstDigit(s, 0);
    if j == |s| then None
    else
      var digits := s[j..];
      Some(DecimalValue(digits[..DigitRun(digits)]))
  }

  /** `str(n)` after `_`, with no earlier `_` and digit, and before a non-digit, is the number read. */
  lemma UnderscoreNumberOf(pre: string, n: nat, rest: string)
    requires forall k :: 0 <= k < |pre| ==> !UnderscoreDigitAt(pre, k)
    requires rest == [] || !IsDigit(rest[0])
    ensures UnderscoreNumber(pre + "_" + NatToDecimal(n) + rest) == Some(n)
  {
    var d := NatToDecimal(n);
    var s := pre + "_" + d + rest;
    forall k | 0 <= k < |pre| ensures !UnderscoreDigitAt(s, k) {
      assert s[k] == pre[k];
      if k + 1 < |pre| {
        assert !UnderscoreDigitAt(pre, k);
        assert s[k + 1] == pre[k + 1];
      } else {
        assert s[k + 1] == '_';
      }
    }
    assert s[|pre|] == '_' && s[|pre| + 1] == d[0];
    assert UnderscoreDigitAt(s, |pre|);
    assert FirstUnderscoreDigit(s, 0) == |pre|;
    assert s[|pre| + 1..] == d + rest;
    DigitRunOfDigits(d, rest);
    DecimalRoundTrip(n);
  }

  /** `str(n)` after text with no digit, and before a non-digit, is the number read. */
  lemma FirstNumberOf(pre: string, n: nat, rest: string)
    requires forall k :: 0 <= k < |pre| ==> !IsDigit(pre[k])
    requires rest == [] || !IsDigit(rest[0])
    ensures FirstNumber(pre + NatToDecimal(n) + rest) == Some(n)
  {
    var d := NatToDecimal(n);
    var s := pre + d + rest;
    assert forall k :: 0 <= k < |pre| ==> s[k] == pre[k];
    assert s[|pre|] == d[0];
    assert FirstDigit(s, 0) == |pre|;
    assert s[|pre|..] == d + rest;
    DigitRunOfDigits(d, rest);
    DecimalRoundTrip(n);
  }

  /** The rating code: the number after the first `_` in the span's classes joined by spaces. */
  function RatingCode(block: RatingBlock): Option<nat> {
    match block.spanClasses
    case None => None
    case Some(classes) => UnderscoreNumber(Join(classes, " "))
  }

  /** The review count: the first number in the link text. */
  function ReviewsCount(block: RatingBlock): Option<nat> {
    match block.reviewsText
    case None => None
    case Some(text) => FirstNumber(text)
  }

  // ===========================================================================
  // The attempt loop
  // ===========================================================================

  /** `rest` preceded by one failed attempt that paused `pause`. */
  function Retried(pause: seq<nat>, rest: RatingRun): RatingRun {
    RatingRun(rest.rating, rest.reviewsCount, rest.attempts + 1, pause + rest.delays)
  }

  /**
   * The attempts `attempt`, `attempt + 1`, ... once the browser has been closed: each one's
   * `wait_for_selector` raises, the outer handler catches it and pauses unless it was the last.
   */
  function ClosedFrom(attempt: nat, maxRetries: int): (r: RatingRun)
    ensures r.rating.None? && r.reviewsCount.None?
    ensures r.attempts == if attempt < maxRetries then maxRetries - attempt else 0
    decreases maxRetries - attempt
  {
    if attempt >= maxRetries then RatingRun(None, None, 0, [])
    else Retried(if attempt == maxRetries - 1 then [] else [PauseMs], ClosedFrom(attempt + 1, maxRetries))
  }

  /** The attempts `attempt`, `attempt + 1`, ... of the loop, the browser still open. */
  function RatingFrom(snaps: seq<Snapshot>, attempt: nat, maxRetries: int): (r: RatingRun)
    ensures r.rating.None? ==> r.reviewsCount.None?
    ensures r.attempts <= if attempt < maxRetries then maxRetries - attempt else 0
    ensures attempt < maxRetries ==> r.attempts >= 1
    decreases maxRetries - attempt
  {
    if attempt >= maxRetries then RatingRun(None, None, 0, [])
    else
      var last := attempt == maxRetries - 1;
      var pause := if last then [] else [PauseMs];
      var rest := RatingFrom(snaps, attempt + 1, maxRetries);
      match SnapshotAt(snaps, attempt)
      case Crashed => Retried(pause, rest)
      case Snapshot(appeared, block) =>
        if !appeared && !last then Retried(pause, rest)
        else if block.None? then
          (if last then RatingRun(None, None, 1, []) else Retried(pause, rest))
        else
          var code := RatingCode(block.value);
          var reviews := ReviewsCount(block.value);
          if code.Some? then RatingRun(code, reviews, 1, [])
          // a review count without a code: the browser is closed, then `None / 10` raises
          // TypeError, which is caught; every later attempt fails on the closed browser
          else if reviews.Some? then Retried(pause, ClosedFrom(attempt + 1, maxRetries))
          else Retried(pause, rest)
  }

  /** `parse_kaspi_rating_playwright`: nothing without a loaded page, else the attempt loop. */
  function RatingSpec(pageLoaded: bool, snaps: seq<Snapshot>, maxRetries: int): RatingRun {
    if !pageLoaded then RatingRun(None, None, 0, []) else RatingFrom(snaps, 0, maxRetries)
  }

  /** What is left of the loop from `attempt` on, given whether the browser has been closed. */
  function Remaining(snaps: seq<Snapshot>, attempt: nat, maxRetries: int, closed: bool): RatingRun {
    if closed then ClosedFrom(attempt, maxRetries) else RatingFrom(snaps, attempt, maxRetries)
  }

  /** `for attempt in range(max_retries)` with its `continue`s, `break` and early `return`. */
  method ParseRating(pageLoaded: bool, snaps: seq<Snapshot>, maxRetries: int) returns (r: RatingRun)
    ensures r == RatingSpec(pageLoaded, snaps, maxRetries)
  {
    if !pageLoaded {
      return RatingRun(None, None, 0, []);
    }
    var delays: seq<nat> := [];
    var attempt: nat := 0;
    var closed := false;
    while attempt < maxRetries
      invariant attempt <= maxRetries || attempt == 0
      invariant RatingFrom(snaps, 0, maxRetries) == PrefixedBy(attempt, delays, Remaining(snaps, attempt, maxRetries, closed))
      decreases maxRetries - attempt
    {
      ghost var before := delays;
      ghost var rest := Remaining(snaps, attempt + 1, maxRetries, closed);
      if closed {
        // `wait_for_selector` on the closed browser raises; the outer handler catches it
        if attempt < maxRetries - 1 {
          delays := delays + [PauseMs];
        }
        PrefixedByStep(attempt, before, delays, rest);
        attempt := attempt + 1;
        continue;
      }
      var snapshot := SnapshotAt(snaps, attempt);
      if snapshot.Crashed? {
        if attempt < maxRetries - 1 {
          delays := delays + [PauseMs];
        }
        PrefixedByStep(attempt, before, delays, rest);
        attempt := attempt + 1;
        continue;
      }
      if !snapshot.selectorAppeared && attempt < maxRetries - 1 {
        delays := delays + [PauseMs];
        PrefixedByStep(attempt, before, delays, rest);
        attempt := attempt + 1;
        continue;
      }
      if snapshot.block.None? {
        if attempt < maxRetries - 1 {
          delays := delays + [PauseMs];
          PrefixedByStep(attempt, before, delays, rest);
          attempt := attempt + 1;
          continue;
        } else {
          assert delays + [] == delays;
          return RatingRun(None, None, attempt + 1, delays);
        }
      }
      var code := RatingCode(snapshot.block.value);
      var reviews := ReviewsCount(snapshot.block.value);
      if code.Some? || reviews.Some? {
        if code.Some? {
          assert delays + [] == delays;
          return RatingRun(code, reviews, attempt + 1, delays);
        }
        // `browser.close()`, then `rating_value / 10` with `rating_value = None` raises TypeError, caught below
        closed := true;
        rest := ClosedFrom(attempt + 1, maxRetries);
      }
      if attempt < maxRetries - 1 {
        delays := delays + [PauseMs];
      }
      PrefixedByStep(attempt, before, delays, rest);
      attempt := attempt + 1;
    }
    assert delays + [] == delays;
    r := RatingRun(None, None, attempt, delays);
  }

  /** `rest` preceded by `n` failed attempts that paused `delays`. */
  function PrefixedBy(n: nat, delays: seq<nat>, rest: RatingRun): RatingRun {
    RatingRun(rest.rating, rest.reviewsCount, rest.attempts + n, delays + rest.delays)
  }

  lemma PrefixedByStep(n: nat, before: seq<nat>, after: seq<nat>, rest: RatingRun)
    requires |before| <= |after| && after[..|before|] == before
    ensures PrefixedBy(n, before, Retried(after[|before|..], rest)) == PrefixedBy(n + 1, after, rest)
  {
    assert before + (after[|before|..] + rest.delays) == after + rest.delays;
  }

  // ===========================================================================
  // What the loop returns
  // ===========================================================================

  /** Attempt `attempt` reads the block: the selector appeared, or it is the last attempt, and the block exists. */
  predicate ReadsBlock(snaps: seq<Snapshot>, attempt: nat, maxRetries: int) {
    var s := SnapshotAt(snaps, attempt);
    s.Snapshot? && (s.selectorAppeared || attempt == maxRetries - 1) && s.block.Some?
  }

  /** Attempt `attempt` reads the block and finds a rating code: the loop returns. */
  predicate Yields(snaps: seq<Snapshot>, attempt: nat, maxRetries: int) {
    ReadsBlock(snaps, attempt, maxRetries) && RatingCode(SnapshotAt(snaps, attempt).block.value).Some?
  }

  /** Attempt `attempt` reads the block and finds a review count but no code: the browser is closed. */
  predicate OnlyReviews(snaps: seq<Snapshot>, attempt: nat, maxRetries: int) {
    && ReadsBlock(snaps, attempt, maxRetries)
    && RatingCode(SnapshotAt(snaps, attempt).block.value).None?
    && ReviewsCount(SnapshotAt(snaps, attempt).block.value).Some?
  }

  /** No attempt in `from .. to - 1` yields or closes the browser. */
  predicate Undecided(snaps: seq<Snapshot>, from: nat, to: nat, maxRetries: int) {
    forall j :: from <= j < to ==> !Yields(snaps, j, maxRetries) && !OnlyReviews(snaps, j, maxRetries)
  }

  /** A rating comes back exactly when some attempt yields a code with no only-reviews attempt before it. */
  lemma {:induction false} RatingIffYield(snaps: seq<Snapshot>, attempt: nat, maxRetries: int)
    ensures RatingFrom(snaps, attempt, maxRetries).rating.Some? <==>
            exists k :: attempt <= k < maxRetries && Yields(snaps, k, maxRetries) &&
                        forall j :: attempt <= j < k ==> !OnlyReviews(snaps, j, maxRetries)
    decreases maxRetries - attempt
  {
    if attempt < maxRetries {
      RatingIffYield(snaps, attempt + 1, maxRetries);
      if !Yields(snaps, attempt, maxRetries) && !OnlyReviews(snaps, attempt, maxRetries) {
        var s := SnapshotAt(snaps, attempt);
        if s.Snapshot? && s.selectorAppeared == false && attempt == maxRetries - 1 && s.block.None? {
          assert RatingFrom(snaps, attempt + 1, maxRetries).rating.None?;
        }
      }
    }
  }

  /** Attempt `attempt` neither yields nor closes the browser: the loop goes on to the next one. */
  lemma StepOfUndecided(snaps: seq<Snapshot>, attempt: nat, maxRetries: int)
    requires attempt < maxRetries - 1
    requires !Yields(snaps, attempt, maxRetries) && !OnlyReviews(snaps, attempt, maxRetries)
    ensures RatingFrom(snaps, attempt, maxRetries) == Retried([PauseMs], RatingFrom(snaps, attempt + 1, maxRetries))
  {
  }

  /**
   * When attempt `k` is the first to yield or close the browser and it yields, the result is its
   * code and review count, after `k - attempt + 1` attempts.
   */
  lemma {:induction false} RatingIsFirstYield(snaps: seq<Snapshot>, attempt: nat, maxRetries: int, k: nat)
    requires attempt <= k < maxRetries && Yields(snaps, k, maxRetries) && Undecided(snaps, attempt, k, maxRetries)
    ensures RatingFrom(snaps, attempt, maxRetries).rating == RatingCode(SnapshotAt(snaps, k).block.value)
    ensures RatingFrom(snaps, attempt, maxRetries).reviewsCount == ReviewsCount(SnapshotAt(snaps, k).block.value)
    ensures RatingFrom(snaps, attempt, maxRetries).attempts == k - attempt + 1
    decreases k - attempt
  {
    if attempt < k {
      assert !Yields(snaps, attempt, maxRetries) && !OnlyReviews(snaps, attempt, maxRetries);
      StepOfUndecided(snaps, attempt, maxRetries);
      RatingIsFirstYield(snaps, attempt + 1, maxRetries, k);
    }
  }

  /**
   * When attempt `k` is the first to yield or close the browser and it only finds a review count,
   * nothing is returned, after all `max_retries` attempts.
   */
  lemma {:induction false} OnlyReviewsFirst(snaps: seq<Snapshot>, attempt: nat, maxRetries: int, k: nat)
    requires attempt <= k < maxRetries && OnlyReviews(snaps, k, maxRetries) && Undecided(snaps, attempt, k, maxRetries)
    ensures RatingFrom(snaps, attempt, maxRetries).rating.None?
    ensures RatingFrom(snaps, attempt, maxRetries).reviewsCount.None?
    ensures RatingFrom(snaps, attempt, maxRetries).attempts == maxRetries - attempt
    decreases k - attempt
  {
    if attempt < k {
      assert !Yields(snaps, attempt, maxRetries) && !OnlyReviews(snaps, attempt, maxRetries);
      StepOfUndecided(snaps, attempt, maxRetries);
      OnlyReviewsFirst(snaps, attempt + 1, maxRetries, k);
    } else {
      OnlyReviewsClosesBrowser(snaps, attempt, maxRetries);
    }
  }

  /**
   * An attempt that finds a review count but no rating code ends the search: the browser is
   * closed before the division raises, every later attempt fails, and nothing is returned.
   */
  lemma OnlyReviewsClosesBrowser(snaps: seq<Snapshot>, attempt: nat, maxRetries: int)
    requires attempt < maxRetries && OnlyReviews(snaps, attempt, maxRetries)
    ensures RatingFrom(snaps, attempt, maxRetries).rating.None?
    ensures RatingFrom(snaps, attempt, maxRetries).reviewsCount.None?
    ensures RatingFrom(snaps, attempt, maxRetries).attempts == maxRetries - attempt
    ensures PausesBetween(RatingFrom(snaps, attempt, maxRetries))
  {
    RatingAttemptsBound(snaps, attempt, maxRetries);
  }

  /** One pause of two seconds between consecutive attempts, and none after the last. */
  predicate PausesBetween(r: RatingRun) {
    && (r.attempts > 0 ==> |r.delays| == r.attempts - 1)
    && (r.attempts == 0 ==> r.delays == [])
    && (forall i :: 0 <= i < |r.delays| ==> r.delays[i] == PauseMs)
  }

  /** A failed attempt in front of a run: a pause unless it was the last attempt. */
  lemma RetriedPauses(pause: seq<nat>, rest: RatingRun)
    requires PausesBetween(rest)
    requires (pause == [PauseMs] && rest.attempts > 0) || (pause == [] && rest.attempts == 0)
    ensures PausesBetween(Retried(pause, rest))
  {
    var r := Retried(pause, rest);
    forall i | 0 <= i < |r.delays| ensures r.delays[i] == PauseMs {
      if i >= |pause| {
        assert r.delays[i] == rest.delays[i - |pause|];
      }
    }
  }

  lemma {:induction false} ClosedPauses(attempt: nat, maxRetries: int)
    ensures PausesBetween(ClosedFrom(attempt, maxRetries))
    decreases maxRetries - attempt
  {
    if attempt < maxRetries {
      ClosedPauses(attempt + 1, maxRetries);
      RetriedPauses(if attempt == maxRetries - 1 then [] else [PauseMs], ClosedFrom(attempt + 1, maxRetries));
    }
  }

  /** Between one and `max_retries` attempts, with a pause of two seconds after every one but the last. */
  lemma {:induction false} RatingAttemptsBound(snaps: seq<Snapshot>, attempt: nat, maxRetries: int)
    ensures attempt < maxRetries ==> 1 <= RatingFrom(snaps, attempt, maxRetries).attempts <= maxRetries - attempt
    ensures attempt >= maxRetries ==> RatingFrom(snaps, attempt, maxRetries).attempts == 0
    ensures PausesBetween(RatingFrom(snaps, attempt, maxRetries))
    decreases maxRetries - attempt
  {
    if attempt < maxRetries {
      RatingAttemptsBound(snaps, attempt + 1, maxRetries);
      ClosedPauses(attempt + 1, maxRetries);
      var pause := if attempt == maxRetries - 1 then [] else [PauseMs];
      RetriedPauses(pause, RatingFrom(snaps, attempt + 1, maxRetries));
      RetriedPauses(pause, ClosedFrom(attempt + 1, maxRetries));
    }
  }

  /** A span with classes `rating` and `_45` and a link "(12 отзывов)" give code 45 and 12 reviews on the first attempt. */
  lemma RatingExample(snaps: seq<Snapshot>)
    requires |snaps| >= 1
    requires snaps[0] == Snapshot(true, Some(RatingBlock(Some(["rating", "_45"]), Some("(12 отзывов)"))))
    ensures RatingSpec(true, snaps, DefaultMaxRetries) == RatingRun(Some(45), Some(12), 1, [])
  {
    var block := RatingBlock(Some(["rating", "_45"]), Some("(12 отзывов)"));
    ExampleCode();
    ExampleReviews();
    assert SnapshotAt(snaps, 0) == Snapshot(true, Some(block));
  }

  /**
   * A first attempt with only a review count closes the browser, so a rating shown at the second
   * attempt is never read: nothing is returned after all three attempts and two pauses.
   */
  lemma OnlyReviewsThenRatingExample()
    ensures RatingSpec(true, [Snapshot(true, Some(RatingBlock(None, Some("(5)")))),
                              Snapshot(true, Some(RatingBlock(Some(["rating", "_45"]), None)))], DefaultMaxRetries) ==
            RatingRun(None, None, 3, [PauseMs, PauseMs])
  {
    var snaps := [Snapshot(true, Some(RatingBlock(None, Some("(5)")))),
                  Snapshot(true, Some(RatingBlock(Some(["rating", "_45"]), None)))];
    assert FirstDigit("(5)", 0) == 1;
    assert FirstNumber("(5)").Some?;
    assert OnlyReviews(snaps, 0, DefaultMaxRetries);
    OnlyReviewsClosesBrowser(snaps, 0, DefaultMaxRetries);
    assert ClosedFrom(1, DefaultMaxRetries) == RatingRun(None, None, 2, [PauseMs]);
  }

  lemma ExampleCode()
    ensures UnderscoreNumber(Join(["rating", "_45"], " ")) == Some(45)
  {
    var joined := Join(["rating", "_45"], " ");
    assert ["rating", "_45"][1..] == ["_45"];
    assert joined == "rating _45";
    assert FirstUnderscoreDigit(joined, 0) == 7 by {
      forall k | 0 <= k < 7 ensures !UnderscoreDigitAt(joined, k) {
      }
      assert UnderscoreDigitAt(joined, 7);
    }
    assert joined[8..] == "45";
    DigitRunAll("45");
    assert "45"[..1] == "4" && "4"[..0] == [];
  }

  lemma ExampleReviews()
    ensures FirstNumber("(12 отзывов)") == Some(12)
  {
    var text := "(12 отзывов)";
    assert FirstDigit(text, 0) == 1;
    assert text[1..] == "12 отзывов)";
    assert "12 отзывов)" == "12" + " отзывов)";
    DigitRunOfDigits("12", " отзывов)");
    assert "12"[..1] == "1" && "1"[..0] == [];
  }

  lemma DigitRunAll(s: string)
    requires s != [] && AllDigits(s)
    ensures DigitRun(s) == |s| && s[..DigitRun(s)] == s
  {
    DigitRunOfDigits(s, []);
    assert s + [] == s;
  }
}
