/** `parser_generator(pages_amount)` as an explicit state machine: each page is yielded,
    and yielded again after a non-OK outcome, at most `retries_amount` times in all,
    pages 1 to `pages_amount` in turn.  A yield stands for `load_and_parse_page(page)`;
    it is identified here by its page number. */
module Harvest {
  import opened Py
  import opened Proxy

  /** `retries_amount`: the most times one page is yielded. */
  const RetriesAmount: nat := 10

  /** The generator's frame: not started, suspended at the `yield` of `page` for the
      `attempt`-th time (1-based), or returned. */
  datatype GenState = Fresh | Suspended(page: nat, attempt: nat) | Finished

  /** What a `send` hands back: the next yield, `StopIteration`, or the `TypeError` of a
      non-None value sent to a generator that has not started. */
  datatype Resumed = Yielded(page: nat) | StopIteration | SendTypeError

  /** A frame the generator can be in for `n` pages. */
  predicate Valid(n: nat, g: GenState) {
    g.Suspended? ==> 1 <= g.page <= n && 1 <= g.attempt <= RetriesAmount
  }

  /** Entering page `p` of `n`: its first yield, or the end of the generator past the last page. */
  function Enter(n: nat, p: nat): (res: (GenState, Resumed))
    ensures p <= n ==> res == (Suspended(p, 1), Yielded(p))
    ensures p > n ==> res == (Finished, StopIteration)
  {
    if p <= n then (Suspended(p, 1), Yielded(p)) else (Finished, StopIteration)
  }

  /** `gen.send(sent)`.  A fresh generator accepts only `None` and runs to the first yield
      (a non-None value raises `TypeError` and leaves it unstarted); a returned one raises
      `StopIteration` for ever.  A suspended one, resumed with an OK outcome or after its
      last attempt, enters the next page; otherwise it yields the same page again. */
  function Send(n: nat, g: GenState, sent: Option<StepResult>): (res: (GenState, Resumed))
    requires Valid(n, g)
    ensures Valid(n, res.0)
    ensures res.1.Yielded? <==> res.0.Suspended?
    ensures res.1.Yielded? ==> res.1.page == res.0.page
    ensures g.Fresh? && sent.Some? ==> res == (Fresh, SendTypeError)
    ensures g.Fresh? && sent.None? ==> res == Enter(n, 1)
    ensures g.Finished? ==> res == (Finished, StopIteration)
    ensures g.Suspended? && sent == Some(OK) ==> res == Enter(n, g.page + 1)
    ensures g.Suspended? && sent != Some(OK) && g.attempt < RetriesAmount ==>
              res == (Suspended(g.page, g.attempt + 1), Yielded(g.page))
    ensures g.Suspended? && sent != Some(OK) && g.attempt == RetriesAmount ==> res == Enter(n, g.page + 1)
  {
    match g
    case Fresh => if sent.Some? then (Fresh, SendTypeError) else Enter(n, 1)
    case Finished => (Finished, StopIteration)
    case Suspended(p, a) =>
      if sent == Some(OK) || a == RetriesAmount then Enter(n, p + 1)
      else (Suspended(p, a + 1), Yielded(p))
  }

  /** The pages yielded by successive sends, up to the first send that does not yield. */
  function Pump(n: nat, g: GenState, sends: seq<Option<StepResult>>): (pages: seq<nat>)
    requires Valid(n, g)
    ensures |pages| <= |sends|
    decreases |sends|
  {
    if |sends| == 0 then []
    else
      var (g', res) := Send(n, g, sends[0]);
      if res.Yielded? then [res.page] + Pump(n, g', sends[1..]) else []
  }

  /** The outcomes as the driver sends them: the first send carries nothing, each later one
      the outcome of the step before. */
  function Carried(outs: seq<StepResult>): (sends: seq<Option<StepResult>>)
    ensures |sends| == |outs|
    ensures forall i :: 0 <= i < |outs| ==> sends[i] == Some(outs[i])
  {
    if |outs| == 0 then [] else [Some(outs[0])] + Carried(outs[1..])
  }

  /** The pages a fresh generator yields when `outs[i]` is the outcome of its `i`-th yield. */
  function Trace(n: nat, outs: seq<StepResult>): seq<nat> {
    Pump(n, Fresh, [None] + Carried(outs))
  }

  // The reference schedule: pages as runs of repeated yields.

  /** `k` copies of `x`. */
  function Repeat<T>(x: T, k: nat): (xs: seq<T>)
    ensures |xs| == k && forall i :: 0 <= i < k ==> xs[i] == x
  {
    if k == 0 then [] else [x] + Repeat(x, k - 1)
  }

  /** The length of the leading run of ERROR outcomes. */
  function LeadingErrors(outs: seq<StepResult>): (k: nat)
    ensures k <= |outs|
    ensures k < |outs| ==> outs[k] == OK
  {
    if |outs| == 0 || outs[0] == OK then 0 else 1 + LeadingErrors(outs[1..])
  }

  /** The outcomes before the first OK are all ERROR. */
  lemma {:induction false} LeadingErrorsAreErrors(outs: seq<StepResult>)
    ensures forall j :: 0 <= j < LeadingErrors(outs) ==> outs[j] == ERROR
  {
    if |outs| > 0 && outs[0] == ERROR {
      LeadingErrorsAreErrors(outs[1..]);
      assert forall j :: 1 <= j < |outs| ==> outs[j] == outs[1..][j - 1];
    }
  }

  function Min(a: nat, b: nat): nat {
    if a <= b then a else b
  }

  /** The yields from page `p` on, when `p` may still be yielded `cap` times: page `p`
      runs until its first OK outcome or for `cap` yields, whichever is shorter (cut
      short when the outcomes run out), and then the schedule goes on from `p + 1`
      with a full allowance; nothing is yielded past page `n`. */
  function Schedule(p: nat, cap: nat, n: nat, outs: seq<StepResult>): seq<nat>
    requires 1 <= cap <= RetriesAmount
    decreases |outs|
  {
    if p > n then []
    else
      var k := Min(cap, LeadingErrors(outs) + 1);
      if |outs| < k then Repeat(p, |outs| + 1)
      else Repeat(p, k) + Schedule(p + 1, RetriesAmount, n, outs[k..])
  }

  /** A page run that completes within the outcomes, and the schedule after it. */
  lemma ScheduleRun(p: nat, cap: nat, n: nat, outs: seq<StepResult>, k: nat)
    requires 1 <= cap <= RetriesAmount && p <= n
    requires k == Min(cap, LeadingErrors(outs) + 1) && k <= |outs|
    ensures Schedule(p, cap, n, outs) == Repeat(p, k) + Schedule(p + 1, RetriesAmount, n, outs[k..])
  {
  }

  /** A page run that the end of the outcomes cuts short. */
  lemma ScheduleCut(p: nat, cap: nat, n: nat, outs: seq<StepResult>)
    requires 1 <= cap <= RetriesAmount && p <= n
    requires |outs| < Min(cap, LeadingErrors(outs) + 1)
    ensures Schedule(p, cap, n, outs) == Repeat(p, |outs| + 1)
  {
  }

  /** Peeling one ERROR off the front of a page run. */
  lemma ScheduleError(p: nat, cap: nat, n: nat, outs: seq<StepResult>)
    requires 2 <= cap <= RetriesAmount && p <= n
    requires |outs| > 0 && outs[0] == ERROR
    ensures Schedule(p, cap, n, outs) == [p] + Schedule(p, cap - 1, n, outs[1..])
  {
    var rest := outs[1..];
    var k' := Min(cap - 1, LeadingErrors(rest) + 1);
    assert LeadingErrors(outs) == 1 + LeadingErrors(rest);
    assert Min(cap, LeadingErrors(outs) + 1) == k' + 1;
    if |rest| < k' {
      ScheduleCut(p, cap, n, outs);
      ScheduleCut(p, cap - 1, n, rest);
      RepeatCons(p, |rest| + 1);
    } else {
      ScheduleRun(p, cap, n, outs, k' + 1);
      ScheduleRun(p, cap - 1, n, rest, k');
      assert outs[k' + 1..] == rest[k'..];
      RepeatThen(p, k', Schedule(p + 1, RetriesAmount, n, rest[k'..]));
    }
  }

  lemma RepeatThen<T>(x: T, k: nat, s: seq<T>)
    ensures Repeat(x, k + 1) + s == [x] + (Repeat(x, k) + s)
  {
    RepeatCons(x, k);
  }

  /** An OK outcome comes no earlier than the end of the leading errors. */
  lemma FirstOkEndsErrors(outs: seq<StepResult>, j: nat)
    requires j < |outs| && outs[j] == OK
    ensures LeadingErrors(outs) <= j
  {
    LeadingErrorsAreErrors(outs);
  }

  lemma RepeatCons<T>(x: T, k: nat)
    ensures Repeat(x, k + 1) == [x] + Repeat(x, k)
  {
  }

  /** One send that yields, and the pumping after it. */
  lemma PumpYields(n: nat, g: GenState, sends: seq<Option<StepResult>>)
    requires Valid(n, g) && |sends| > 0 && Send(n, g, sends[0]).1.Yielded?
    ensures Pump(n, g, sends) == [Send(n, g, sends[0]).1.page] + Pump(n, Send(n, g, sends[0]).0, sends[1..])
  {
  }

  /** A page run that ends on its first outcome. */
  lemma ScheduleAdvance(p: nat, cap: nat, n: nat, outs: seq<StepResult>)
    requires 1 <= cap <= RetriesAmount && p <= n && |outs| > 0
    requires outs[0] == OK || cap == 1
    ensures Schedule(p, cap, n, outs) == [p] + Schedule(p + 1, RetriesAmount, n, outs[1..])
  {
    assert Min(cap, LeadingErrors(outs) + 1) == 1;
    assert Repeat(p, 1) == [p];
  }

  /** A suspended generator follows the schedule of its page with the attempts it has left. */
  lemma {:induction false} PumpIsSchedule(n: nat, p: nat, a: nat, outs: seq<StepResult>)
    requires 1 <= p <= n && 1 <= a <= RetriesAmount
    ensures [p] + Pump(n, Suspended(p, a), Carried(outs)) == Schedule(p, RetriesAmount + 1 - a, n, outs)
    decreases |outs|, 1
  {
    var sends := Carried(outs);
    if |outs| == 0 {
      assert Repeat(p, 1) == [p];
    } else {
      if outs[0] == OK || a == RetriesAmount {
        ScheduleAdvanceStep(n, p, a, outs);
      } else {
        ScheduleRetryStep(n, p, a, outs);
      }
    }
  }

  lemma {:induction false} ScheduleAdvanceStep(n: nat, p: nat, a: nat, outs: seq<StepResult>)
    requires 1 <= p <= n && 1 <= a <= RetriesAmount && |outs| > 0
    requires outs[0] == OK || a == RetriesAmount
    ensures [p] + Pump(n, Suspended(p, a), Carried(outs)) == Schedule(p, RetriesAmount + 1 - a, n, outs)
    decreases |outs|, 0
  {
    var sends := Carried(outs);
    assert sends[0] == Some(outs[0]);
    assert sends[1..] == Carried(outs[1..]);
    ScheduleAdvance(p, RetriesAmount + 1 - a, n, outs);
    if p + 1 <= n {
      assert Send(n, Suspended(p, a), sends[0]) == (Suspended(p + 1, 1), Yielded(p + 1));
      PumpYields(n, Suspended(p, a), sends);
      PumpIsSchedule(n, p + 1, 1, outs[1..]);
    } else {
      assert Send(n, Suspended(p, a), sends[0]) == (Finished, StopIteration);
    }
  }

  lemma {:induction false} ScheduleRetryStep(n: nat, p: nat, a: nat, outs: seq<StepResult>)
    requires 1 <= p <= n && 1 <= a < RetriesAmount && |outs| > 0 && outs[0] == ERROR
    ensures [p] + Pump(n, Suspended(p, a), Carried(outs)) == Schedule(p, RetriesAmount + 1 - a, n, outs)
    decreases |outs|, 0
  {
    var sends := Carried(outs);
    assert sends[0] == Some(outs[0]);
    assert sends[1..] == Carried(outs[1..]);
    assert Send(n, Suspended(p, a), sends[0]) == (Suspended(p, a + 1), Yielded(p));
    PumpYields(n, Suspended(p, a), sends);
    PumpIsSchedule(n, p, a + 1, outs[1..]);
    ScheduleError(p, RetriesAmount + 1 - a, n, outs);
  }

  /** The generator's yields are exactly the reference schedule from page 1. */
  lemma TraceIsSchedule(n: nat, outs: seq<StepResult>)
    ensures Trace(n, outs) == Schedule(1, RetriesAmount, n, outs)
  {
    var sends := [None] + Carried(outs);
    assert sends[1..] == Carried(outs);
    if n >= 1 {
      assert Send(n, Fresh, sends[0]) == (Suspended(1, 1), Yielded(1));
      PumpYields(n, Fresh, sends);
      PumpIsSchedule(n, 1, 1, outs);
    }
  }

  // The shape of a schedule from page `p`, one property at a time.

  /** Pages within `p..n`, the first being `p`. */
  ghost predicate InPages(p: nat, n: nat, t: seq<nat>) {
    (forall i :: 0 <= i < |t| ==> p <= t[i] <= n) && (|t| > 0 ==> t[0] == p)
  }

  /** Each yield is of the same page as the one before or of the next. */
  ghost predicate NoSkip(t: seq<nat>) {
    forall i :: 0 <= i < |t| - 1 ==> t[i + 1] == t[i] || t[i + 1] == t[i] + 1
  }

  /** Page `p` is yielded at most `cap` times, all at the start. */
  ghost predicate HeadCap(p: nat, cap: nat, t: seq<nat>) {
    forall i :: cap <= i < |t| ==> t[i] > p
  }

  /** No page is yielded more than ten times (in a nondecreasing trace). */
  ghost predicate AtMostTen(t: seq<nat>) {
    forall i :: 0 <= i < |t| - RetriesAmount ==> t[i] < t[i + RetriesAmount]
  }

  /** An OK outcome is followed by the next page. */
  ghost predicate OkAdvances(outs: seq<StepResult>, t: seq<nat>) {
    forall j :: 0 <= j < |t| - 1 && j < |outs| && outs[j] == OK ==> t[j + 1] == t[j] + 1
  }

  /** An ERROR outcome is followed by another page only after the page's last allowed yield. */
  ghost predicate ErrorRetries(p: nat, cap: nat, outs: seq<StepResult>, t: seq<nat>) {
    forall j :: 0 <= j < |t| - 1 && j < |outs| ==> ErrorRetriesAt(p, cap, outs, t, j)
  }

  /** The ERROR outcome at `j`, if it moves on, came at the page's last allowed yield:
      its tenth, or its `cap`-th when it is the first page `p`. */
  ghost predicate ErrorRetriesAt(p: nat, cap: nat, outs: seq<StepResult>, t: seq<nat>, j: nat)
    requires j < |t| - 1 && j < |outs|
  {
    outs[j] == ERROR && t[j + 1] != t[j] ==>
      (j + 1 >= RetriesAmount && t[j + 1 - RetriesAmount] == t[j]) || (t[j] == p && j + 1 == cap)
  }

  ghost predicate WellScheduled(p: nat, cap: nat, n: nat, outs: seq<StepResult>, t: seq<nat>) {
    InPages(p, n, t) && NoSkip(t) && HeadCap(p, cap, t) && AtMostTen(t)
    && OkAdvances(outs, t) && ErrorRetries(p, cap, outs, t)
  }

  lemma RunThenRestPages(p: nat, n: nat, k: nat, t': seq<nat>)
    requires p <= n && 1 <= k && InPages(p + 1, n, t') && NoSkip(t')
    ensures InPages(p, n, Repeat(p, k) + t') && NoSkip(Repeat(p, k) + t')
  {
    var t := Repeat(p, k) + t';
    assert forall i :: k <= i < |t| ==> t[i] == t'[i - k];
    forall i | 0 <= i < |t| - 1
      ensures t[i + 1] == t[i] || t[i + 1] == t[i] + 1
    {
      if i >= k {
        assert t[i + 1] == t'[i + 1 - k];
      }
    }
  }

  lemma RunThenRestCounts(p: nat, cap: nat, k: nat, t': seq<nat>)
    requires 1 <= k <= cap <= RetriesAmount
    requires (forall i :: 0 <= i < |t'| ==> p + 1 <= t'[i]) && AtMostTen(t')
    ensures HeadCap(p, cap, Repeat(p, k) + t') && AtMostTen(Repeat(p, k) + t')
  {
    var t := Repeat(p, k) + t';
    assert forall i :: k <= i < |t| ==> t[i] == t'[i - k];
    forall i | 0 <= i < |t| - RetriesAmount
      ensures t[i] < t[i + RetriesAmount]
    {
      if i >= k {
        assert t[i] == t'[i - k] && t[i + RetriesAmount] == t'[i - k + RetriesAmount];
      }
    }
  }

  lemma RunThenRestOk(p: nat, cap: nat, n: nat, outs: seq<StepResult>, k: nat, t': seq<nat>)
    requires 1 <= cap <= RetriesAmount && p <= n
    requires k == Min(cap, LeadingErrors(outs) + 1) && k <= |outs|
    requires InPages(p + 1, n, t') && OkAdvances(outs[k..], t')
    ensures OkAdvances(outs, Repeat(p, k) + t')
  {
    var t := Repeat(p, k) + t';
    var rest := outs[k..];
    forall j | 0 <= j < |t| - 1 && j < |outs| && outs[j] == OK
      ensures t[j + 1] == t[j] + 1
    {
      if j >= k {
        assert rest[j - k] == outs[j];
        assert t[j] == t'[j - k] && t[j + 1] == t'[j - k + 1];
      } else {
        FirstOkEndsErrors(outs, j);
        assert t[j + 1] == t'[0];
      }
    }
  }

  lemma RunThenRestError(p: nat, cap: nat, n: nat, outs: seq<StepResult>, k: nat, t': seq<nat>)
    requires 1 <= cap <= RetriesAmount && p <= n
    requires k == Min(cap, LeadingErrors(outs) + 1) && k <= |outs|
    requires InPages(p + 1, n, t') && ErrorRetries(p + 1, RetriesAmount, outs[k..], t')
    ensures ErrorRetries(p, cap, outs, Repeat(p, k) + t')
  {
    var t := Repeat(p, k) + t';
    forall j | 0 <= j < |t| - 1 && j < |outs|
      ensures ErrorRetriesAt(p, cap, outs, t, j)
    {
      if outs[j] == ERROR && t[j + 1] != t[j] {
        ErrorAt(p, cap, n, outs, k, t', j);
      }
    }
  }

  /** One ERROR outcome of `RunThenRestError`, in the first page's run or after it. */
  lemma ErrorAt(p: nat, cap: nat, n: nat, outs: seq<StepResult>, k: nat, t': seq<nat>, j: nat)
    requires 1 <= cap <= RetriesAmount && p <= n
    requires k == Min(cap, LeadingErrors(outs) + 1) && k <= |outs|
    requires (forall i :: 0 <= i < |t'| ==> t'[i] > p) && (|t'| > 0 ==> t'[0] == p + 1)
    requires ErrorRetries(p + 1, RetriesAmount, outs[k..], t')
    requires j + 1 < k + |t'| && j < |outs| && outs[j] == ERROR
    requires (Repeat(p, k) + t')[j + 1] != (Repeat(p, k) + t')[j]
    ensures var t := Repeat(p, k) + t';
            (j + 1 >= RetriesAmount && t[j + 1 - RetriesAmount] == t[j]) || (t[j] == p && j + 1 == cap)
  {
    if j >= k {
      RepeatThenAt(p, k, t', j);
      RepeatThenAt(p, k, t', j + 1);
      LaterError(p, k, outs, t', j);
    } else {
      FirstRunError(p, cap, outs, k, t', j);
    }
  }

  lemma RepeatThenAt<T>(x: T, k: nat, t: seq<T>, i: nat)
    requires i < k + |t|
    ensures (Repeat(x, k) + t)[i] == if i < k then x else t[i - k]
  {
  }

  /** An ERROR that ends the first page's run was its last allowed yield. */
  lemma FirstRunError(p: nat, cap: nat, outs: seq<StepResult>, k: nat, t': seq<nat>, j: nat)
    requires 1 <= cap && k == Min(cap, LeadingErrors(outs) + 1) && k <= |outs|
    requires (forall i :: 0 <= i < |t'| ==> t'[i] > p)
    requires j < k && j + 1 < k + |t'| && outs[j] == ERROR
    requires (Repeat(p, k) + t')[j + 1] != (Repeat(p, k) + t')[j]
    ensures (Repeat(p, k) + t')[j] == p && j + 1 == cap
  {
    var t := Repeat(p, k) + t';
    assert forall i :: 0 <= i < k ==> t[i] == p;
    assert j == k - 1;
    assert LeadingErrors(outs) != k - 1;
  }

  /** The error case of a yield after the first page's run. */
  lemma LaterError(p: nat, k: nat, outs: seq<StepResult>, t': seq<nat>, j: nat)
    requires k <= j < |outs| && j + 1 < k + |t'| && t'[0] == p + 1
    requires ErrorRetries(p + 1, RetriesAmount, outs[k..], t')
    requires outs[j] == ERROR && t'[j + 1 - k] != t'[j - k]
    ensures j + 1 >= RetriesAmount && (Repeat(p, k) + t')[j + 1 - RetriesAmount] == t'[j - k]
  {
    var rest := outs[k..];
    assert rest[j - k] == ERROR;
    var i := j - k;
    assert 0 <= i < |t'| - 1 && i < |rest| && rest[i] == ERROR && t'[i + 1] != t'[i];
    assert ErrorRetriesAt(p + 1, RetriesAmount, rest, t', i);
    assert (Repeat(p, k) + t')[j + 1 - RetriesAmount] == t'[i + 1 - RetriesAmount];
  }

  /** A page's run followed by a well-scheduled continuation from the next page. */
  lemma RunThenRest(p: nat, cap: nat, n: nat, outs: seq<StepResult>, k: nat, t': seq<nat>)
    requires 1 <= cap <= RetriesAmount && p <= n
    requires k == Min(cap, LeadingErrors(outs) + 1) && k <= |outs|
    requires WellScheduled(p + 1, RetriesAmount, n, outs[k..], t')
    ensures WellScheduled(p, cap, n, outs, Repeat(p, k) + t')
  {
    RunThenRestPages(p, n, k, t');
    RunThenRestCounts(p, cap, k, t');
    RunThenRestOk(p, cap, n, outs, k, t');
    RunThenRestError(p, cap, n, outs, k, t');
  }

  /** A page's run cut short by the end of the outcomes. */
  lemma RunOnly(p: nat, cap: nat, n: nat, outs: seq<StepResult>)
    requires 1 <= cap <= RetriesAmount && p <= n
    requires |outs| < Min(cap, LeadingErrors(outs) + 1)
    ensures WellScheduled(p, cap, n, outs, Repeat(p, |outs| + 1))
  {
    LeadingErrorsAreErrors(outs);
  }

  /** Every schedule has that shape. */
  lemma {:induction false} ScheduleShape(p: nat, cap: nat, n: nat, outs: seq<StepResult>)
    requires 1 <= cap <= RetriesAmount
    ensures WellScheduled(p, cap, n, outs, Schedule(p, cap, n, outs))
    decreases |outs|
  {
    if p <= n {
      var k := Min(cap, LeadingErrors(outs) + 1);
      if |outs| < k {
        RunOnly(p, cap, n, outs);
      } else {
        ScheduleShape(p + 1, RetriesAmount, n, outs[k..]);
        RunThenRest(p, cap, n, outs, k, Schedule(p + 1, RetriesAmount, n, outs[k..]));
      }
    }
  }

  /** Whatever the outcomes: the generator yields pages from 1 to `n` in order, starting
      at 1 and never skipping one; no page is yielded more than ten times; an OK outcome
      moves straight to the next page; and an ERROR outcome moves on only after the
      page's tenth yield. */
  lemma TraceProperties(n: nat, outs: seq<StepResult>)
    ensures var t := Trace(n, outs);
            && (forall i :: 0 <= i < |t| ==> 1 <= t[i] <= n)
            && (|t| > 0 ==> t[0] == 1)
            && (forall i :: 0 <= i < |t| - 1 ==> t[i + 1] == t[i] || t[i + 1] == t[i] + 1)
            && (forall i :: 0 <= i < |t| - RetriesAmount ==> t[i] < t[i + RetriesAmount])
            && (forall j :: 0 <= j < |t| - 1 && j < |outs| && outs[j] == OK ==> t[j + 1] == t[j] + 1)
            && (forall j :: 0 <= j < |t| - 1 && j < |outs| && outs[j] == ERROR && t[j + 1] != t[j] ==>
                  j + 1 >= RetriesAmount && t[j + 1 - RetriesAmount] == t[j])
  {
    var t := Trace(n, outs);
    TraceIsSchedule(n, outs);
    ScheduleShape(1, RetriesAmount, n, outs);
    assert WellScheduled(1, RetriesAmount, n, outs, t);
    forall j | 0 <= j < |t| - 1 && j < |outs| && outs[j] == ERROR && t[j + 1] != t[j]
      ensures j + 1 >= RetriesAmount && t[j + 1 - RetriesAmount] == t[j]
    {
      assert ErrorRetriesAt(1, RetriesAmount, outs, t, j);
      assert t[0] == 1;
      if j + 1 == RetriesAmount {
        assert t[j + 1 - RetriesAmount] == t[0];
      }
    }
  }

  /** The pages `lo, lo + 1, ..., hi`. */
  function Range(lo: nat, hi: nat): (ps: seq<nat>)
    ensures |ps| == if lo <= hi then hi - lo + 1 else 0
    ensures forall i :: 0 <= i < |ps| ==> ps[i] == lo + i
    decreases hi + 1 - lo
  {
    if lo > hi then [] else [lo] + Range(lo + 1, hi)
  }

  lemma {:induction false} ScheduleAllOk(p: nat, n: nat, m: nat)
    requires 1 <= p
    ensures Schedule(p, RetriesAmount, n, Repeat(OK, m)) == Range(p, Min(p + m, n))
    decreases m
  {
    if p <= n {
      var outs := Repeat(OK, m);
      assert LeadingErrors(outs) == 0;
      if m == 0 {
        assert Repeat(p, 1) == [p];
      } else {
        assert outs[1..] == Repeat(OK, m - 1);
        ScheduleAllOk(p + 1, n, m - 1);
        assert Repeat(p, 1) == [p];
      }
    }
  }

  /** With every outcome OK the generator yields pages 1 to `n`, each once, and then
      stops: outcomes beyond the `n`-th are never asked for. */
  lemma AllOkYieldsEachPageOnce(n: nat, m: nat)
    requires m >= n
    ensures Trace(n, Repeat(OK, m)) == Range(1, n)
  {
    TraceIsSchedule(n, Repeat(OK, m));
    ScheduleAllOk(1, n, m);
  }

  lemma {:induction false} LeadingErrorsRun(m: nat, tail: seq<StepResult>)
    ensures LeadingErrors(Repeat(ERROR, m) + tail) == m + LeadingErrors(tail)
  {
    if m > 0 {
      assert (Repeat(ERROR, m) + tail)[1..] == Repeat(ERROR, m - 1) + tail;
      LeadingErrorsRun(m - 1, tail);
    } else {
      assert Repeat(ERROR, m) + tail == tail;
    }
  }

  /** Three pages where page 2 fails every time: page 1 once, page 2 ten times, then
      page 3 once. */
  lemma SecondPageAlwaysFails()
    ensures Trace(3, [OK] + Repeat(ERROR, RetriesAmount) + [OK]) == [1] + Repeat(2, RetriesAmount) + [3]
  {
    var errs := Repeat(ERROR, RetriesAmount) + [OK];
    var outs := [OK] + errs;
    assert [OK] + Repeat(ERROR, RetriesAmount) + [OK] == outs;
    TraceIsSchedule(3, outs);
    assert outs[1..] == errs;
    ScheduleAdvance(1, RetriesAmount, 3, outs);
    LeadingErrorsRun(RetriesAmount, [OK]);
    assert LeadingErrors(errs) == RetriesAmount;
    assert errs[RetriesAmount..] == [OK];
    ScheduleRun(2, RetriesAmount, 3, errs, RetriesAmount);
    ScheduleAdvance(3, RetriesAmount, 3, [OK]);
    assert Schedule(4, RetriesAmount, 3, []) == [];
  }
}
