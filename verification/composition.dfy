/** `run_with_proxy(parser_generator(PAGES_AMOUNT))`: the driver pumping the page
    generator, each yield fetching one catalogue page.  A fetch either delivers the
    page's listing JSON, which the listing filter turns into recipes, or raises
    `requests.HTTPError`.

    The HTTP error is raised by `load_and_parse_page` inside the generator's frame,
    so it leaves the generator: the generator is finished when the driver catches
    the error, and the driver's next `send` ends the run with `StopIteration`.  The
    retry loop of the generator is never reached this way.  `keepAlive` selects the
    evidently intended composition instead, in which a failed fetch becomes the
    ERROR outcome of a generator that is still suspended at its page. */
module Composition {
  import opened Py
  import opened JsonValue
  import opened Recipes
  import opened Listing
  import opened Proxy
  import opened Harvest

  /** What fetching one page does: deliver its listing, or raise `HTTPError`. */
  datatype Fetch = Loaded(listing: Json) | HttpFailure

  /** A run of the composition: how it ended, and the pages requested, in order. */
  datatype Run = Run(finish: Finish<seq<Recipe>>, pages: seq<nat>)

  /** The run from generator frame `g` and driver state `d` on the fetch results `fetches`,
      taken in order, one per yield.  Every requested page is one of the `n` catalogue
      pages; each fetch result is consumed by one request, and a run left pending has
      made one request more, the one no result is at hand for. */
  function Loop(n: nat, g: GenState, d: Driver<seq<Recipe>>, fetches: seq<Fetch>, keepAlive: bool): (r: Run)
    requires Valid(n, g)
    ensures forall i :: 0 <= i < |r.pages| ==> 1 <= r.pages[i] <= n
    ensures r.finish.Pending? ==> |r.pages| == |fetches| + 1
    ensures !r.finish.Pending? ==> |r.pages| <= |fetches|
    decreases |fetches|
  {
    var (g', res) := Send(n, g, d.next);
    var sent := d.effects + [Sent(d.next)];
    match res
    case SendTypeError => Run(Escaped(TypeError, sent), [])
    case StopIteration => Run(Returned(d.values, d.err, sent), [])
    case Yielded(page) =>
      if |fetches| == 0 then Run(Pending(d), [page])
      else
        var rest := match fetches[0]
          case HttpFailure => Loop(n, if keepAlive then g' else Finished, Step(d, HttpError), fetches[1..], keepAlive)
          case Loaded(listing) =>
            match FilterListing(listing)
            case Ok(recipes) => Loop(n, g', Step(d, Produced(recipes)), fetches[1..], keepAlive)
            case Raised(e) => Run(Escaped(e, sent), []);
        Run(rest.finish, [page] + rest.pages)
  }

  /** The application as written.  With no pages the generator stops at once and the
      driver returns nothing; otherwise the first request is page 1, and every request
      is a catalogue page. */
  function HarvestAsWritten(n: nat, fetches: seq<Fetch>): (r: Run)
    ensures forall i :: 0 <= i < |r.pages| ==> 1 <= r.pages[i] <= n
    ensures r.finish.Pending? ==> |r.pages| == |fetches| + 1
    ensures !r.finish.Pending? ==> |r.pages| <= |fetches|
    ensures n == 0 ==> r == Run(Returned([], 0, [Sent(None)]), [])
    ensures n >= 1 ==> |r.pages| > 0 && r.pages[0] == 1
  {
    FirstRequest(n, fetches, false);
    Loop(n, Fresh, Start(), fetches, false)
  }

  /** The application with a failed fetch fed back to a generator that survives it;
      it starts the same way as the application as written. */
  function HarvestCorrected(n: nat, fetches: seq<Fetch>): (r: Run)
    ensures forall i :: 0 <= i < |r.pages| ==> 1 <= r.pages[i] <= n
    ensures r.finish.Pending? ==> |r.pages| == |fetches| + 1
    ensures !r.finish.Pending? ==> |r.pages| <= |fetches|
    ensures n == 0 ==> r == Run(Returned([], 0, [Sent(None)]), [])
    ensures n >= 1 ==> |r.pages| > 0 && r.pages[0] == 1
  {
    FirstRequest(n, fetches, true);
    Loop(n, Fresh, Start(), fetches, true)
  }

  /** How a run from a fresh generator begins. */
  lemma FirstRequest(n: nat, fetches: seq<Fetch>, keepAlive: bool)
    ensures var r := Loop(n, Fresh, Start(), fetches, keepAlive);
            && (n == 0 ==> r == Run(Returned([], 0, [Sent(None)]), []))
            && (n >= 1 ==> |r.pages| > 0 && r.pages[0] == 1)
  {
    var d := Start<seq<Recipe>>();
    if n == 0 {
      assert Send(n, Fresh, d.next) == (Finished, StopIteration);
    } else {
      assert Send(n, Fresh, d.next) == (Suspended(1, 1), Yielded(1));
    }
  }

  /** A fetch after which the run goes on: a failure, or a listing the filter accepts. */
  predicate Benign(f: Fetch) {
    f.HttpFailure? || FilterListing(f.listing).Ok?
  }

  /** The outcome the driver feeds back for a fetch. */
  function Outcome(f: Fetch): StepResult {
    if f.HttpFailure? then ERROR else OK
  }

  function Outcomes(fetches: seq<Fetch>): (outs: seq<StepResult>)
    ensures |outs| == |fetches|
    ensures forall i :: 0 <= i < |fetches| ==> outs[i] == Outcome(fetches[i])
  {
    if |fetches| == 0 then [] else [Outcome(fetches[0])] + Outcomes(fetches[1..])
  }

  /** As written, a run returns with at most one more error than it started with: the
      first HTTP error finishes the generator. */
  lemma {:induction false} AsWrittenAtMostOneError(n: nat, g: GenState, d: Driver<seq<Recipe>>, fetches: seq<Fetch>)
    requires Valid(n, g)
    ensures var r := Loop(n, g, d, fetches, false);
            r.finish.Returned? ==> r.finish.err <= d.err + 1
    decreases |fetches|
  {
    var (g', res) := Send(n, g, d.next);
    if res.Yielded? && |fetches| > 0 {
      match fetches[0]
      case HttpFailure =>
        var d' := Step(d, HttpError);
        assert Send(n, Finished, d'.next).1 == StopIteration;
      case Loaded(listing) =>
        if FilterListing(listing).Ok? {
          AsWrittenAtMostOneError(n, g', Step(d, Produced(FilterListing(listing).value)), fetches[1..]);
        }
    }
  }

  /** The defect shown on two pages: the first fetch fails, and the application returns
      at once with no recipes and one error; page 1 is not retried and page 2 is never
      requested, although two good listings are at hand. */
  lemma AsWrittenNeverRetries()
    ensures HarvestAsWritten(2, [HttpFailure, Loaded(Null), Loaded(Null)])
         == Run(Returned([], 1, [Sent(None), Sent(Some(ERROR))]), [1])
  {
    var d1 := Step(Start<seq<Recipe>>(), HttpError);
    assert d1 == Driver([], 1, Some(ERROR), [Sent(None)]);
    assert Send(2, Finished, d1.next) == (Finished, StopIteration);
    assert d1.effects + [Sent(d1.next)] == [Sent(None), Sent(Some(ERROR))];
    assert Loop(2, Finished, d1, [Loaded(Null), Loaded(Null)], false)
        == Run(Returned([], 1, [Sent(None), Sent(Some(ERROR))]), []);
  }

  /** The defect for any number of pages and any later fetches: when the first fetch
      fails, the application returns at once with no recipes and one error, having
      requested page 1 only. */
  lemma AsWrittenFirstFailureEnds(n: nat, fetches: seq<Fetch>)
    requires n >= 1 && |fetches| > 0 && fetches[0] == HttpFailure
    ensures HarvestAsWritten(n, fetches) == Run(Returned([], 1, [Sent(None), Sent(Some(ERROR))]), [1])
  {
    var d1 := Step(Start<seq<Recipe>>(), HttpError);
    assert d1 == Driver([], 1, Some(ERROR), [Sent(None)]);
    assert Send(n, Fresh, None) == (Suspended(1, 1), Yielded(1));
    assert Send(n, Finished, d1.next) == (Finished, StopIteration);
    assert Loop(n, Finished, d1, fetches[1..], false)
        == Run(Returned([], 1, [Sent(None), Sent(Some(ERROR))]), []);
  }

  /** The same inputs in the corrected composition: page 1 is requested again and
      succeeds, then page 2, and the run returns both pages' recipes with one error. */
  lemma CorrectedRetries()
    ensures HarvestCorrected(2, [HttpFailure, Loaded(Null), Loaded(Null)]).pages == [1, 1, 2]
    ensures HarvestCorrected(2, [HttpFailure, Loaded(Null), Loaded(Null)]).finish
         == Returned([[], []], 1, [Sent(None), Sent(Some(ERROR)), Rotate, Cooldown, Sent(Some(OK)), Rotate, Cooldown, Sent(Some(OK))])
  {
    var d0 := Start<seq<Recipe>>();
    var d1 := Step(d0, HttpError);
    var d2 := Step(d1, Produced([]));
    var d3 := Step(d2, Produced([]));
    assert d3 == Driver([[], []], 1, Some(OK), [Sent(None), Sent(Some(ERROR)), Rotate, Cooldown, Sent(Some(OK)), Rotate, Cooldown]);
    assert FilterListing(Null) == Ok([]);
    assert Send(2, Suspended(2, 1), Some(OK)) == (Finished, StopIteration);
    assert Send(2, Finished, Some(OK)) == (Finished, StopIteration);
    assert Loop(2, Finished, d3, [], true) == Run(Returned([[], []], 1, d3.effects + [Sent(Some(OK))]), []);
    assert Send(2, Suspended(1, 2), Some(OK)) == (Suspended(2, 1), Yielded(2));
    assert Loop(2, Suspended(2, 1), d3, [Loaded(Null)], true) == Run(Returned([[], []], 1, d3.effects + [Sent(Some(OK))]), []);
    assert Loop(2, Suspended(1, 1), d1, [Loaded(Null), Loaded(Null)], true).pages == [1, 2];
  }

  /** In the corrected composition, with fetches the run survives, the pages requested
      are exactly the generator's schedule for the fetches' outcomes. */
  lemma {:induction false} CorrectedPagesArePumped(n: nat, g: GenState, d: Driver<seq<Recipe>>, fetches: seq<Fetch>)
    requires Valid(n, g)
    requires forall i :: 0 <= i < |fetches| ==> Benign(fetches[i])
    ensures Loop(n, g, d, fetches, true).pages == Pump(n, g, [d.next] + Carried(Outcomes(fetches)))
    decreases |fetches|
  {
    var sends := [d.next] + Carried(Outcomes(fetches));
    var (g', res) := Send(n, g, d.next);
    if res.Yielded? {
      PumpYields(n, g, sends);
      if |fetches| > 0 {
        var d' := if fetches[0].HttpFailure? then Step(d, HttpError)
                  else Step(d, Produced(FilterListing(fetches[0].listing).value));
        assert d'.next == Some(Outcome(fetches[0]));
        assert sends[1..] == [d'.next] + Carried(Outcomes(fetches[1..]));
        CorrectedPagesArePumped(n, g', d', fetches[1..]);
      }
    }
  }

  /** The corrected application requests pages exactly as the generator schedules them:
      in order from 1, each at most ten times, a page again after its failure. */
  lemma CorrectedFollowsSchedule(n: nat, fetches: seq<Fetch>)
    requires forall i :: 0 <= i < |fetches| ==> Benign(fetches[i])
    ensures HarvestCorrected(n, fetches).pages == Trace(n, Outcomes(fetches))
  {
    CorrectedPagesArePumped(n, Fresh, Start(), fetches);
  }

  /** In either composition, a run that returns accounts for every page it requested:
      each gave one list of recipes or one error. */
  lemma {:induction false} RunAccounts(n: nat, g: GenState, d: Driver<seq<Recipe>>, fetches: seq<Fetch>, keepAlive: bool)
    requires Valid(n, g)
    ensures var r := Loop(n, g, d, fetches, keepAlive);
            r.finish.Returned? ==> |r.finish.values| + r.finish.err == |d.values| + d.err + |r.pages|
    decreases |fetches|
  {
    var (g', res) := Send(n, g, d.next);
    if res.Yielded? && |fetches| > 0 {
      match fetches[0]
      case HttpFailure =>
        RunAccounts(n, if keepAlive then g' else Finished, Step(d, HttpError), fetches[1..], keepAlive);
      case Loaded(listing) =>
        if FilterListing(listing).Ok? {
          RunAccounts(n, g', Step(d, Produced(FilterListing(listing).value)), fetches[1..], keepAlive);
        }
    }
  }

  /** The intended behaviour of the retry loop, on the pages the corrected application
      requests: they run from page 1 to `n` without skipping one, no page is requested
      more than ten times, a page that loaded is followed by the next page, and a failed
      fetch is followed by the same page again unless it was that page's tenth request. */
  lemma CorrectedRetriesFailedPages(n: nat, fetches: seq<Fetch>)
    requires forall i :: 0 <= i < |fetches| ==> Benign(fetches[i])
    ensures var t := HarvestCorrected(n, fetches).pages;
            && (forall i :: 0 <= i < |t| ==> 1 <= t[i] <= n)
            && (|t| > 0 ==> t[0] == 1)
            && (forall i :: 0 <= i < |t| - 1 ==> t[i + 1] == t[i] || t[i + 1] == t[i] + 1)
            && (forall i :: 0 <= i < |t| - RetriesAmount ==> t[i] < t[i + RetriesAmount])
            && (forall j :: 0 <= j < |t| - 1 && j < |fetches| && fetches[j].Loaded? ==> t[j + 1] == t[j] + 1)
            && (forall j :: 0 <= j < |t| - 1 && j < |fetches| && fetches[j].HttpFailure? && t[j + 1] != t[j] ==>
                  j + 1 >= RetriesAmount && t[j + 1 - RetriesAmount] == t[j])
  {
    var outs := Outcomes(fetches);
    CorrectedFollowsSchedule(n, fetches);
    TraceProperties(n, outs);
    assert forall j :: 0 <= j < |fetches| ==> (fetches[j].Loaded? <==> outs[j] == OK);
  }
}
