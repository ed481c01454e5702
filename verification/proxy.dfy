/** `run_with_proxy`: the driver that pumps a generator, feeding back after each step
    whether it succeeded, and rotating the Tor circuit after every produced value.
    The generator's side of a `send` is abstracted as an event, and the controller's
    NEWNYM signal and the cooldown sleep as trace effects. */
module Proxy {
  import opened Py

  /** The outcome fed back into the generator. */
  datatype StepResult = OK | ERROR

  /** What one `gen.send(result)` does: produce a value, raise `requests.HTTPError`,
      finish (`StopIteration`), or raise any other exception, which escapes. */
  datatype Event<V> = Produced(value: V) | HttpError | Exhausted | Failed(exc: Exc)

  /** The observable effects of the loop, in order: each `send` with the outcome it
      carries, each NEWNYM circuit rotation, each cooldown sleep. */
  datatype Effect = Sent(outcome: Option<StepResult>) | Rotate | Cooldown

  /** The loop's state: `values`, `err`, the `result` the next `send` carries, and the
      effects so far. */
  datatype Driver<V> = Driver(values: seq<V>, err: nat, next: Option<StepResult>, effects: seq<Effect>)

  /** How a run ends: returned after `StopIteration`, left by an escaping exception, or
      still running when the events at hand are used up. */
  datatype Finish<V> =
    | Returned(values: seq<V>, err: nat, effects: seq<Effect>)
    | Escaped(exc: Exc, effects: seq<Effect>)
    | Pending(driver: Driver<V>)

  /** `err = 0`, `values = []`, `result = None`, nothing sent yet. */
  function Start<V>(): (d: Driver<V>)
    ensures d.values == [] && d.err == 0 && d.next.None? && d.effects == []
  {
    Driver([], 0, None, [])
  }

  /** The events after which the loop goes round again. */
  predicate Continues<V>(e: Event<V>) {
    e.Produced? || e.HttpError?
  }

  /** One pass of the loop body for an event that does not end it.  A produced value is
      appended, the next outcome becomes OK, and the send is followed by exactly one
      rotation and one cooldown; an HTTP error appends nothing, rotates nothing, makes
      the next outcome ERROR and counts one error. */
  function Step<V>(d: Driver<V>, e: Event<V>): (d': Driver<V>)
    requires Continues(e)
    ensures e.Produced? ==> && d'.values == d.values + [e.value] && d'.err == d.err
                            && d'.next == Some(OK)
                            && d'.effects == d.effects + [Sent(d.next), Rotate, Cooldown]
    ensures e.HttpError? ==> && d'.values == d.values && d'.err == d.err + 1
                             && d'.next == Some(ERROR)
                             && d'.effects == d.effects + [Sent(d.next)]
  {
    match e
    case Produced(v) => Driver(d.values + [v], d.err, Some(OK), d.effects + [Sent(d.next), Rotate, Cooldown])
    case HttpError => Driver(d.values, d.err + 1, Some(ERROR), d.effects + [Sent(d.next)])
  }

  /** Where the loop stops: the first event that ends it, or the end of the events. */
  function StopIndex<V>(events: seq<Event<V>>): (k: nat)
    ensures k <= |events|
    ensures forall j :: 0 <= j < k ==> Continues(events[j])
    ensures k < |events| ==> !Continues(events[k])
  {
    if |events| == 0 || !Continues(events[0]) then 0 else 1 + StopIndex(events[1..])
  }

  // Reference accounts of a run's continuing events, each defined on its own.

  /** The values produced, in production order. */
  function Values<V>(es: seq<Event<V>>): (vs: seq<V>)
    ensures |vs| <= |es|
  {
    if |es| == 0 then []
    else Values(es[..|es| - 1]) + (if es[|es| - 1].Produced? then [es[|es| - 1].value] else [])
  }

  /** The number of HTTP errors. */
  function Errors<V>(es: seq<Event<V>>): (n: nat)
    ensures n <= |es|
  {
    if |es| == 0 then 0
    else Errors(es[..|es| - 1]) + (if es[|es| - 1].HttpError? then 1 else 0)
  }

  /** What each send carries: nothing on the first, and on every later one the outcome
      of the step before it. */
  function Feedback<V>(es: seq<Event<V>>): (fb: seq<Option<StepResult>>)
    requires forall i :: 0 <= i < |es| ==> Continues(es[i])
    ensures |fb| == |es| + 1 && fb[0].None?
    ensures forall i :: 0 <= i < |es| ==> fb[i + 1] == Some(if es[i].Produced? then OK else ERROR)
  {
    if |es| == 0 then [None]
    else Feedback(es[..|es| - 1]) + [Some(if es[|es| - 1].Produced? then OK else ERROR)]
  }

  /** The outcomes carried by the sends of a trace, in order. */
  function Sends(effects: seq<Effect>): (os: seq<Option<StepResult>>)
    ensures |os| <= |effects|
  {
    if |effects| == 0 then []
    else Sends(effects[..|effects| - 1])
         + (if effects[|effects| - 1].Sent? then [effects[|effects| - 1].outcome] else [])
  }

  /** How many times an effect occurs in a trace. */
  function Count(effects: seq<Effect>, x: Effect): (n: nat)
    ensures n <= |effects|
  {
    if |effects| == 0 then 0
    else Count(effects[..|effects| - 1], x) + (if effects[|effects| - 1] == x then 1 else 0)
  }

  lemma SendsAppend(effects: seq<Effect>, more: seq<Effect>)
    ensures Sends(effects + more) == Sends(effects) + Sends(more)
    decreases |more|
  {
    if |more| > 0 {
      assert (effects + more)[..|effects + more| - 1] == effects + more[..|more| - 1];
      SendsAppend(effects, more[..|more| - 1]);
    } else {
      assert effects + more == effects;
    }
  }

  lemma CountAppend(effects: seq<Effect>, more: seq<Effect>, x: Effect)
    ensures Count(effects + more, x) == Count(effects, x) + Count(more, x)
    decreases |more|
  {
    if |more| > 0 {
      assert (effects + more)[..|effects + more| - 1] == effects + more[..|more| - 1];
      CountAppend(effects, more[..|more| - 1], x);
    } else {
      assert effects + more == effects;
    }
  }

  /** Every continuing event is either a produced value or an error, so the two
      accounts together cover the run. */
  lemma {:induction false} ValuesAndErrorsPartition<V>(es: seq<Event<V>>)
    requires forall i :: 0 <= i < |es| ==> Continues(es[i])
    ensures |Values(es)| + Errors(es) == |es|
  {
    if |es| > 0 {
      ValuesAndErrorsPartition(es[..|es| - 1]);
    }
  }

  /** A driver state accounts for the continuing events it has consumed: their values,
      their errors, the outcomes sent so far, the one about to be sent, and one rotation
      and one cooldown per value. */
  ghost predicate Tracks<V>(d: Driver<V>, es: seq<Event<V>>)
    requires forall i :: 0 <= i < |es| ==> Continues(es[i])
  {
    && d.values == Values(es) && d.err == Errors(es)
    && Sends(d.effects) == Feedback(es)[..|es|] && d.next == Feedback(es)[|es|]
    && Count(d.effects, Rotate) == |d.values| == Count(d.effects, Cooldown)
  }

  /** What one pass adds to the trace: one send carrying `next`, then one rotation and
      one cooldown when a value was produced. */
  lemma StepEffects(next: Option<StepResult>, produced: bool)
    ensures var sent := if produced then [Sent(next), Rotate, Cooldown] else [Sent(next)];
            && Sends(sent) == [next]
            && Count(sent, Rotate) == (if produced then 1 else 0)
            && Count(sent, Cooldown) == (if produced then 1 else 0)
  {
    var one: seq<Effect> := [Sent(next)];
    assert one[..0] == [];
    assert Sends(one) == [next] && Count(one, Rotate) == 0 && Count(one, Cooldown) == 0;
    if produced {
      var two: seq<Effect> := [Sent(next), Rotate];
      var three: seq<Effect> := [Sent(next), Rotate, Cooldown];
      assert two[..1] == one && three[..2] == two;
      assert Sends(two) == [next] && Count(two, Rotate) == 1 && Count(two, Cooldown) == 0;
      assert Sends(three) == [next] && Count(three, Rotate) == 1 && Count(three, Cooldown) == 1;
    }
  }

  /** A step keeps the accounts. */
  lemma StepTracks<V>(d: Driver<V>, es: seq<Event<V>>, e: Event<V>)
    requires forall i :: 0 <= i < |es| ==> Continues(es[i])
    requires Continues(e) && Tracks(d, es)
    ensures forall i :: 0 <= i < |es + [e]| ==> Continues((es + [e])[i])
    ensures Tracks(Step(d, e), es + [e])
  {
    var es' := es + [e];
    assert es'[..|es'| - 1] == es;
    assert Feedback(es')[..|es'|] == Feedback(es)[..|es|] + [d.next];
    var sent := if e.Produced? then [Sent(d.next), Rotate, Cooldown] else [Sent(d.next)];
    assert Step(d, e).effects == d.effects + sent;
    StepEffects(d.next, e.Produced?);
    SendsAppend(d.effects, sent);
    CountAppend(d.effects, sent, Rotate);
    CountAppend(d.effects, sent, Cooldown);
  }

  /** The last send, the one whose event ends the loop, completes the feedback. */
  lemma FinalSendTracks<V>(d: Driver<V>, es: seq<Event<V>>)
    requires forall i :: 0 <= i < |es| ==> Continues(es[i])
    requires Tracks(d, es)
    ensures Sends(d.effects + [Sent(d.next)]) == Feedback(es)
    ensures Count(d.effects + [Sent(d.next)], Rotate) == |d.values| == Count(d.effects + [Sent(d.next)], Cooldown)
  {
    SendsAppend(d.effects, [Sent(d.next)]);
    CountAppend(d.effects, [Sent(d.next)], Rotate);
    CountAppend(d.effects, [Sent(d.next)], Cooldown);
    assert Feedback(es) == Feedback(es)[..|es|] + [d.next];
  }

  /** The driver loop.  It sends until an event ends it and then, on `StopIteration`,
      returns the produced values in order with the count of HTTP errors; another
      exception escapes with its trace so far.  The first send carries no outcome and
      every later one the outcome of the step before, and there is one rotation and one
      cooldown per produced value. */
  method RunWithProxy<V>(events: seq<Event<V>>) returns (f: Finish<V>)
    ensures var k := StopIndex(events);
            && (f.Pending? <==> k == |events|)
            && (f.Returned? <==> k < |events| && events[k].Exhausted?)
            && (f.Escaped? ==> k < |events| && events[k] == Failed(f.exc))
    ensures var pre := events[..StopIndex(events)];
            f.Returned? ==> && f.values == Values(pre) && f.err == Errors(pre)
                            && Sends(f.effects) == Feedback(pre)
                            && Count(f.effects, Rotate) == |f.values| == Count(f.effects, Cooldown)
    ensures var pre := events[..StopIndex(events)];
            f.Escaped? ==> Sends(f.effects) == Feedback(pre)
    ensures f.Pending? ==> && f.driver.values == Values(events) && f.driver.err == Errors(events)
                           && Sends(f.driver.effects) == Feedback(events)[..|events|]
  {
    var d := Start<V>();
    var i := 0;
    assert Feedback(events[..0]) == [None];
    while i < |events| && Continues(events[i])
      invariant i <= StopIndex(events)
      invariant Tracks(d, events[..i])
    {
      StepTracks(d, events[..i], events[i]);
      assert events[..i] + [events[i]] == events[..i + 1];
      d := Step(d, events[i]);
      i := i + 1;
    }
    assert events[..i] == events[..StopIndex(events)];
    if i == |events| {
      assert events[..i] == events;
      f := Pending(d);
    } else {
      FinalSendTracks(d, events[..i]);
      if events[i].Exhausted? {
        f := Returned(d.values, d.err, d.effects + [Sent(d.next)]);
      } else {
        f := Escaped(events[i].exc, d.effects + [Sent(d.next)]);
      }
    }
  }
}
