/**
 * The money popups of client/src/main.ts: `showRefund` and `showSpend`
 * group amounts shown less than 450 ms after the previous one into one
 * live aggregate, and each aggregate is dropped by a 1500 ms timer.
 * The clock `performance.now()` is the parameter `now`; the DOM element,
 * its text and its animation are left out.
 *
 * Two models are given. `ShowAsWritten` keeps every pending timer, as the
 * code does: a new aggregate does not cancel the timer of the previous
 * one, and when that stale timer fires it drops the newer aggregate.
 * `Show` is the intended behaviour, where only the live aggregate's own
 * timer is pending; the rest of the model uses it.
 */
module MoneyPopups {
  import opened Wrappers

  /** `REFUND_AGG_WINDOW` and `SPEND_AGG_WINDOW`, in ms. */
  const AGG_WINDOW: real := 450.0
  /** The delay of the timer that drops an aggregate, in ms. */
  const POPUP_LIFE: real := 1500.0

  /** A live aggregate: the total shown so far and the time of its last amount. */
  datatype Agg = Agg(amount: int, lastTime: real)

  /**
   * `showRefund(amount)` / `showSpend(amount)` as intended: within the
   * window of the live aggregate's last amount, add to it; otherwise start
   * a new aggregate with `amount`.
   */
  function Show(agg: Option<Agg>, amount: int, now: real): (r: Option<Agg>)
    ensures r.Some? && r.value.lastTime == now
  {
    if agg.Some? && now - agg.value.lastTime < AGG_WINDOW then Some(Agg(agg.value.amount + amount, now))
    else Some(Agg(amount, now))
  }

  /** The state after showing each `(amount, time)` of `events` in turn. */
  function ShowAll(agg: Option<Agg>, events: seq<(int, real)>): Option<Agg>
  {
    if events == [] then agg
    else
      var e := events[|events| - 1];
      Show(ShowAll(agg, events[..|events| - 1]), e.0, e.1)
  }

  /** Each event comes less than the window after the one before it. */
  ghost predicate Burst(events: seq<(int, real)>) {
    forall i :: 0 < i < |events| ==> events[i].1 - events[i - 1].1 < AGG_WINDOW
  }

  function Total(events: seq<(int, real)>): int {
    if events == [] then 0 else Total(events[..|events| - 1]) + events[|events| - 1].0
  }

  /** A burst shows a single aggregate holding the sum of its amounts. */
  lemma {:induction false} BurstAggregates(events: seq<(int, real)>)
    requires |events| > 0 && Burst(events)
    ensures ShowAll(None, events) == Some(Agg(Total(events), events[|events| - 1].1))
  {
    var n := |events|;
    var init := events[..n - 1];
    if n > 1 {
      assert Burst(init) by {
        forall i | 0 < i < |init| ensures init[i].1 - init[i - 1].1 < AGG_WINDOW {
          assert init[i] == events[i] && init[i - 1] == events[i - 1];
        }
      }
      BurstAggregates(init);
      assert init[n - 2] == events[n - 2];
    } else {
      assert init == [];
    }
  }

  /** An amount shown at least the window after the previous one starts a new aggregate. */
  lemma GapStartsFresh(agg: Option<Agg>, amount: int, now: real)
    requires agg.Some? && now - agg.value.lastTime >= AGG_WINDOW
    ensures Show(agg, amount, now) == Some(Agg(amount, now))
  {
  }

  /**
   * With only the live aggregate's own timer pending, a show at a time no
   * earlier than the last one gives the same result whether or not that
   * timer has fired first: it fires POPUP_LIFE after the last amount, well
   * past the window.
   */
  lemma ExpiryNeverDecides(agg: Option<Agg>, amount: int, now: real)
    requires agg.Some? ==> now >= agg.value.lastTime
    ensures var expired := if agg.Some? && now >= agg.value.lastTime + POPUP_LIFE then None else agg;
      Show(expired, amount, now) == Show(agg, amount, now)
  {
  }

  /** An aggregate as the code keeps it, with the due time of the timer it stores. */
  datatype TimedAgg = TimedAgg(amount: int, lastTime: real, due: real)

  /** The aggregate variable and the due times of every timer still pending. */
  datatype Popups = Popups(agg: Option<TimedAgg>, pending: seq<real>)

  /** Some pending timer is due by `now`. */
  predicate AnyDue(s: seq<real>, now: real)
    ensures AnyDue(s, now) <==> exists i :: 0 <= i < |s| && s[i] <= now
  {
    if s == [] then false
    else if s[0] <= now then true
    else (assert forall i :: 0 < i < |s| ==> s[i] == s[1..][i - 1]; AnyDue(s[1..], now))
  }

  /** The timers that have not fired by `now`. */
  function NotDue(s: seq<real>, now: real): (r: seq<real>)
    ensures forall d :: d in r <==> d in s && d > now
  {
    if s == [] then []
    else (if s[0] > now then [s[0]] else []) + NotDue(s[1..], now)
  }

  /** `clearTimeout` of one timer. */
  function RemoveOne(s: seq<real>, d: real): (r: seq<real>)
    ensures |r| <= |s|
  {
    if s == [] then []
    else if s[0] == d then s[1..]
    else [s[0]] + RemoveOne(s[1..], d)
  }

  /** Every timer due by `now` fires; each of them sets the aggregate to `null`. */
  function FireDue(p: Popups, now: real): (q: Popups)
    ensures AnyDue(p.pending, now) ==> q.agg.None?
    ensures !AnyDue(p.pending, now) ==> q.agg == p.agg
  {
    if AnyDue(p.pending, now) then Popups(None, NotDue(p.pending, now))
    else Popups(p.agg, NotDue(p.pending, now))
  }

  /**
   * `showRefund` / `showSpend` as written, after the timers due by `now`
   * have fired. The merge branch cancels the aggregate's own timer and arms
   * a new one; the new-popup branch arms a timer and leaves every other
   * pending timer in place.
   */
  function ShowAsWritten(p: Popups, amount: int, now: real): (r: Popups)
    ensures r.agg.Some? && r.agg.value.lastTime == now && r.agg.value.due == now + POPUP_LIFE
  {
    var q := FireDue(p, now);
    if q.agg.Some? && now - q.agg.value.lastTime < AGG_WINDOW then
      Popups(Some(TimedAgg(q.agg.value.amount + amount, now, now + POPUP_LIFE)),
             RemoveOne(q.pending, q.agg.value.due) + [now + POPUP_LIFE])
    else
      Popups(Some(TimedAgg(amount, now, now + POPUP_LIFE)), q.pending + [now + POPUP_LIFE])
  }

  function RunAsWritten(p: Popups, events: seq<(int, real)>): Popups {
    if events == [] then p
    else
      var e := events[|events| - 1];
      ShowAsWritten(RunAsWritten(p, events[..|events| - 1]), e.0, e.1)
  }

  /** The aggregate without its timer. */
  function Untimed(a: Option<TimedAgg>): Option<Agg> {
    match a
    case None => None
    case Some(t) => Some(Agg(t.amount, t.lastTime))
  }

  /**
   * When the only pending timer is the live aggregate's own, the code as
   * written does what `Show` does.
   */
  lemma {:induction false} NoStaleTimerAgrees(p: Popups, amount: int, now: real)
    requires p.agg.None? ==> p.pending == []
    requires p.agg.Some? ==>
      p.pending == [p.agg.value.due] && p.agg.value.due == p.agg.value.lastTime + POPUP_LIFE
      && now >= p.agg.value.lastTime
    ensures Untimed(ShowAsWritten(p, amount, now).agg) == Show(Untimed(p.agg), amount, now)
  {
    if p.agg.Some? {
      assert AnyDue(p.pending, now) <==> now >= p.agg.value.due;
    }
  }

  /** The refunds of the counterexample: 1 at 0, 1000, 1200 and 1600 ms. */
  const STALE_EVENTS: seq<(int, real)> := [(1, 0.0), (1, 1000.0), (1, 1200.0), (1, 1600.0)]

  /** The first two refunds, 1000 ms apart: two popups, and the first timer is still pending. */
  lemma {:induction false} StaleFirstSteps()
    ensures ShowAsWritten(Popups(None, []), 1, 0.0) == Popups(Some(TimedAgg(1, 0.0, 1500.0)), [1500.0])
    ensures ShowAsWritten(Popups(Some(TimedAgg(1, 0.0, 1500.0)), [1500.0]), 1, 1000.0)
         == Popups(Some(TimedAgg(1, 1000.0, 2500.0)), [1500.0, 2500.0])
  {
    assert !AnyDue([], 0.0) && NotDue([], 0.0) == [];
    assert !AnyDue([1500.0], 1000.0);
    assert NotDue([1500.0], 1000.0) == [1500.0];
  }

  /** The third refund merges; the fourth finds the stale timer due and starts afresh. */
  lemma {:induction false} StaleLastSteps()
    ensures ShowAsWritten(Popups(Some(TimedAgg(1, 1000.0, 2500.0)), [1500.0, 2500.0]), 1, 1200.0)
         == Popups(Some(TimedAgg(2, 1200.0, 2700.0)), [1500.0, 2700.0])
    ensures ShowAsWritten(Popups(Some(TimedAgg(2, 1200.0, 2700.0)), [1500.0, 2700.0]), 1, 1600.0).agg
         == Some(TimedAgg(1, 1600.0, 3100.0))
  {
    assert !AnyDue([1500.0, 2500.0], 1200.0);
    assert NotDue([1500.0, 2500.0], 1200.0) == [1500.0, 2500.0];
    assert RemoveOne([1500.0, 2500.0], 2500.0) == [1500.0];
    assert AnyDue([1500.0, 2700.0], 1600.0);
  }

  /** The prefixes of the counterexample's events. */
  lemma StalePrefixes()
    ensures STALE_EVENTS[..0] == []
    ensures STALE_EVENTS[..1][..0] == STALE_EVENTS[..0]
    ensures STALE_EVENTS[..2][..1] == STALE_EVENTS[..1]
    ensures STALE_EVENTS[..3][..2] == STALE_EVENTS[..2]
    ensures STALE_EVENTS[..4] == STALE_EVENTS && STALE_EVENTS[..3] == STALE_EVENTS[..|STALE_EVENTS| - 1]
  {
  }

  /**
   * The counterexample: refunds of 1 at 0, 1000, 1200 and 1600 ms. The
   * last comes 400 ms after the third, within the window, so it should
   * join the aggregate started at 1000 ms and show 3. As written, the timer
   * of the first aggregate, due at 1500 ms, was never cancelled; it drops
   * the aggregate started at 1000 ms, so the last refund starts a new popup
   * showing 1.
   */
  lemma {:induction false} StaleTimerSplitsBurst()
    ensures RunAsWritten(Popups(None, []), STALE_EVENTS).agg == Some(TimedAgg(1, 1600.0, 3100.0))
    ensures ShowAll(None, STALE_EVENTS) == Some(Agg(3, 1600.0))
  {
    var e := STALE_EVENTS;
    StalePrefixes();
    StaleFirstSteps();
    StaleLastSteps();
    var p0 := Popups(None, []);
    assert RunAsWritten(p0, e[..1]) == Popups(Some(TimedAgg(1, 0.0, 1500.0)), [1500.0]);
    assert RunAsWritten(p0, e[..2]) == Popups(Some(TimedAgg(1, 1000.0, 2500.0)), [1500.0, 2500.0]);
    assert RunAsWritten(p0, e[..3]) == Popups(Some(TimedAgg(2, 1200.0, 2700.0)), [1500.0, 2700.0]);
    assert ShowAll(None, e[..1]) == Some(Agg(1, 0.0));
    assert ShowAll(None, e[..2]) == Some(Agg(1, 1000.0));
    assert ShowAll(None, e[..3]) == Some(Agg(2, 1200.0));
  }
}
