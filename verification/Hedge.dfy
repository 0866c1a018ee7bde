/**
 * One part attempt and its hedge (internal/engine/hedge.go): the race of two calls, and the delay before the
 * second.
 */
module Hedge {
  import opened Lists
  import opened FanSpec

  // The race.

  /** The hedge timer fires, a slot idle or not; or a call comes back, the hedge or the first one. */
  datatype Event = Tick(idle: bool) | Back(hedge: bool, outcome: Outcome)

  /**
   * Where the race stands: how many calls have been started, and whether the timer is still set; which calls are
   * running; whether one has succeeded, which stops the timer; and how the last one to come back ended.
   */
  datatype Race = Race(started: nat, armed: bool, first: bool, second: bool, won: bool)

  const RACE_START := Race(1, true, true, false, false)

  predicate Over(r: Race) { !r.first && !r.second }

  /** What can happen next. A race that is won starts nothing more. */
  predicate CanHappen(r: Race, e: Event) {
    match e
    case Tick(_) => r.armed && !r.won && !Over(r)
    case Back(hedge, _) => if hedge then r.second else r.first
  }

  function After(r: Race, e: Event): Race {
    match e
    case Tick(idle) => if idle then r.(armed := false, started := r.started + 1, second := true) else r.(armed := false)
    case Back(hedge, outcome) =>
      var won := r.won || outcome == Success;
      if hedge then r.(second := false, won := won) else r.(first := false, won := won)
  }

  /** The events are those of a race, from r to when no call is running. */
  predicate Run(r: Race, es: seq<Event>)
    decreases |es|
  {
    if es == [] then Over(r) else CanHappen(r, es[0]) && Run(After(r, es[0]), es[1..])
  }

  predicate Succeeds(e: Event) { e.Back? && e.outcome == Success }

  /** How an attempt ended: which call's answer it is, whose results were cleaned up, and whose slots given back. */
  datatype Ending = Ending(answer: Event, cleaned: seq<bool>, released: seq<bool>, started: nat)

  /** The calls that came back, in order. */
  function Slots(es: seq<Event>): seq<bool>
    decreases |es|
  {
    if es == [] then []
    else Slots(es[..|es| - 1]) + if es[|es| - 1].Back? then [es[|es| - 1].hedge] else []
  }

  /** The calls that succeeded among the events, in order. */
  function Wins(es: seq<Event>): seq<bool>
    decreases |es|
  {
    if es == [] then []
    else Wins(es[..|es| - 1]) + if Succeeds(es[|es| - 1]) then [es[|es| - 1].hedge] else []
  }

  function RaceFrom(r: Race, es: seq<Event>, n: nat): Race
    requires n <= |es|
    decreases n
  {
    if n == 0 then r else After(RaceFrom(r, es, n - 1), es[n - 1])
  }

  lemma Ended(r: Race, es: seq<Event>)
    requires Run(r, es) && Over(r)
    ensures es == []
  {}

  lemma Taken(es: seq<Event>, n: nat)
    requires n < |es|
    ensures Slots(es[..n + 1]) == Slots(es[..n]) + if es[n].Back? then [es[n].hedge] else []
    ensures Wins(es[..n + 1]) == Wins(es[..n]) + if Succeeds(es[n]) then [es[n].hedge] else []
  {
    assert es[..n + 1][..n] == es[..n];
  }

  /** How many calls have been started and are not running any more; of each there is at most one. */
  predicate Counted(r: Race, slots: seq<bool>) {
    && 1 <= r.started <= 2 && (r.armed ==> r.started == 1) && (r.second ==> r.started == 2)
    && (false in slots <==> !r.first) && (true in slots <==> r.started == 2 && !r.second)
    && (|slots| == 2 ==> slots[0] != slots[1])
    && |slots| == (if r.first then 0 else 1) + (if r.started == 2 && !r.second then 1 else 0)
  }

  lemma CountedNext(r: Race, slots: seq<bool>, e: Event)
    requires Counted(r, slots) && CanHappen(r, e)
    ensures Counted(After(r, e), slots + if e.Back? then [e.hedge] else [])
  {
    if e.Tick? { assert slots + [] == slots; }
  }

  /**
   * The races there are: the first call comes back alone, before the timer or after it found no slot idle; or the
   * timer found one, and both calls come back, in either order.
   */
  lemma RacesAre(es: seq<Event>)
    ensures Run(RACE_START, es) <==>
              || (|es| == 1 && es[0].Back? && !es[0].hedge)
              || (|es| == 2 && es[0] == Tick(false) && es[1].Back? && !es[1].hedge)
              || (|es| == 3 && es[0] == Tick(true) && es[1].Back? && es[2].Back? && es[1].hedge != es[2].hedge)
  {
    if |es| > 0 {
      RunStep(RACE_START, es);
      var r := After(RACE_START, es[0]);
      if |es| > 1 {
        RunStep(r, es[1..]);
        if |es| > 2 {
          RunStep(After(r, es[1]), es[1..][1..]);
          if |es| > 3 { RunStep(After(After(r, es[1]), es[2]), es[1..][1..][1..]); }
        }
      }
      hide Run;
    }
  }

  lemma RunStep(r: Race, es: seq<Event>)
    requires es != []
    ensures Run(r, es) <==> CanHappen(r, es[0]) && Run(After(r, es[0]), es[1..])
    ensures Run(After(r, es[0]), []) <==> Over(After(r, es[0]))
    ensures |es| == 1 ==> es[1..] == []
  {}

  lemma Started(es: seq<Event>)
    requires Run(RACE_START, es)
    ensures es != [] && |Slots(es)| == if es[0] == Tick(true) then 2 else 1
  {
    RacesAre(es);
    Taken(es, 0);
    assert es[..|es|] == es;
    if |es| > 1 { Taken(es, 1); }
    if |es| > 2 { Taken(es, 2); }
    hide Run;
  }

  /**
   * The race run to its end. At most two calls are started, each gives its slot back once, and both are back
   * before the attempt is. The attempt succeeds if either does, with the first success, and a second one is
   * cleaned up; it fails only when every call started has, with the last failure.
   */
  method Hedged(events: seq<Event>) returns (r: Ending)
    requires Run(RACE_START, events)
    ensures 1 <= r.started <= 2 && |r.released| == r.started
    ensures events != [] && (r.started == 2 <==> events[0] == Tick(true))
    ensures false in r.released && (r.started == 2 <==> true in r.released)
    ensures r.released == Slots(events)
    ensures r.answer.Back? && r.answer in events
    ensures r.answer.outcome == Success <==> Wins(events) != []
    ensures Wins(events) == (if r.answer.outcome == Success then [r.answer.hedge] else []) + r.cleaned
    ensures r.answer.outcome != Success ==> events[|events| - 1] == r.answer
  {
    var n, running, armed, started := 0, 1, true, 1;
    var released: seq<bool> := [];
    hide *;
    RaceBegins(events);
    Started(events);
    while true
      invariant n <= |events| && Run(RaceFrom(RACE_START, events, n), events[n..])
      invariant Tracks(RaceFrom(RACE_START, events, n), running, armed, started, released)
      invariant running > 0 && released == Slots(events[..n]) && Wins(events[..n]) == []
      decreases |events| - n
    {
      ghost var race := RaceFrom(RACE_START, events, n);
      StillRunning(race, running, armed, started, released, events[n..]);
      var e := events[n];
      NextEvent(events, n, running, armed, started, released);
      n := n + 1;
      match e {
        case Tick(idle) =>
          armed := false;
          if idle {
            started := started + 1;
            running := running + 1;
          }
        case Back(hedge, outcome) =>
          running := running - 1;
          released := released + [hedge];
          if outcome == Success {
            var cleaned, all := Drain(events, n, running, released, started, hedge);
            return Ending(e, cleaned, all, started);
          }
          if running == 0 {
            AllBack(events, n, running, armed, started, released);
            return Ending(e, [], released, started);
          }
      }
    }
  }

  /** What the loop knows of the race. */
  ghost predicate Tracks(race: Race, running: nat, armed: bool, started: nat, released: seq<bool>) {
    && Counted(race, released) && race.armed == armed && race.started == started && !race.won
    && running == (if race.first then 1 else 0) + (if race.second then 1 else 0)
  }

  lemma RaceBegins(events: seq<Event>)
    requires Run(RACE_START, events)
    ensures Run(RaceFrom(RACE_START, events, 0), events[0..]) && Tracks(RaceFrom(RACE_START, events, 0), 1, true, 1, [])
    ensures Slots(events[..0]) == [] && Wins(events[..0]) == []
  {
    assert events[0..] == events;
  }

  lemma StillRunning(race: Race, running: nat, armed: bool, started: nat, released: seq<bool>, rest: seq<Event>)
    requires Tracks(race, running, armed, started, released) && running > 0 && Run(race, rest)
    ensures rest != []
  {}

  /** One event more, before a call has won. */
  lemma NextEvent(events: seq<Event>, n: nat, running: nat, armed: bool, started: nat, released: seq<bool>)
    requires n < |events| && Run(RaceFrom(RACE_START, events, n), events[n..])
    requires Tracks(RaceFrom(RACE_START, events, n), running, armed, started, released)
    requires released == Slots(events[..n]) && Wins(events[..n]) == []
    ensures var e, next := events[n], RaceFrom(RACE_START, events, n + 1);
            && Run(next, events[n + 1..])
            && (e.Tick? ==> Tracks(next, running + (if e.idle then 1 else 0), false,
                                   started + (if e.idle then 1 else 0), released)
                            && released == Slots(events[..n + 1]) && Wins(events[..n + 1]) == [])
            && (e.Back? ==> running >= 1 && Counted(next, released + [e.hedge]) && next.started == started
                            && released + [e.hedge] == Slots(events[..n + 1])
                            && running - 1 == (if next.first then 1 else 0) + (if next.second then 1 else 0))
            && (e.Back? && e.outcome != Success ==>
                  Tracks(next, running - 1, armed, started, released + [e.hedge]) && Wins(events[..n + 1]) == [])
            && (e.Back? && e.outcome == Success ==>
                  Draining(next, running - 1, started, released + [e.hedge]) && Wins(events[..n + 1]) == [e.hedge])
  {
    var race := RaceFrom(RACE_START, events, n);
    assert events[n..][0] == events[n] && events[n..][1..] == events[n + 1..];
    CountedNext(race, released, events[n]);
    Taken(events, n);
    assert released + [] == released;
  }

  lemma AllBack(events: seq<Event>, n: nat, running: nat, armed: bool, started: nat, released: seq<bool>)
    requires n <= |events| && running == 0 && Run(RaceFrom(RACE_START, events, n), events[n..])
    requires Tracks(RaceFrom(RACE_START, events, n), running, armed, started, released)
    requires 0 < n && released == Slots(events[..n])
    ensures n == |events| && events[..n] == events && 1 <= started <= 2 && |released| == started
    ensures false in released && (started == 2 <==> true in released)
    ensures events[n - 1] == events[|events| - 1] && events[n - 1] in events
  {
    Ended(RaceFrom(RACE_START, events, n), events[n..]);
  }

  /** Once a call has won, those still running are waited for, and what they brought is cleaned up. */
  method Drain(events: seq<Event>, from: nat, running: nat, released: seq<bool>, started: nat, winner: bool)
    returns (cleaned: seq<bool>, all: seq<bool>)
    requires 0 < from <= |events| && Run(RaceFrom(RACE_START, events, from), events[from..])
    requires Draining(RaceFrom(RACE_START, events, from), running, started, released)
    requires released == Slots(events[..from]) && Wins(events[..from]) == [winner]
    ensures all == Slots(events) && Wins(events) == [winner] + cleaned
    ensures 1 <= started <= 2 && |all| == started && false in all && (started == 2 <==> true in all)
    ensures events[from - 1] in events
  {
    hide *;
    cleaned, all := [], released;
    var n, left := from, running;
    assert [winner] + [] == [winner];
    while left > 0
      invariant from <= n <= |events| && Run(RaceFrom(RACE_START, events, n), events[n..])
      invariant Draining(RaceFrom(RACE_START, events, n), left, started, all)
      invariant all == Slots(events[..n]) && Wins(events[..n]) == [winner] + cleaned
      decreases left
    {
      DrainNext(events, n, left, started, all);
      var e := events[n];
      Taken(events, n);
      n := n + 1;
      all := all + [e.hedge];
      if e.outcome == Success {
        assert ([winner] + cleaned) + [e.hedge] == [winner] + (cleaned + [e.hedge]);
        cleaned := cleaned + [e.hedge];
      } else {
        assert ([winner] + cleaned) + [] == [winner] + cleaned;
      }
      left := left - 1;
    }
    Drained(events, n, started, all);
  }

  ghost predicate Draining(race: Race, left: nat, started: nat, all: seq<bool>) {
    && race.won && race.started == started && Counted(race, all)
    && left == (if race.first then 1 else 0) + (if race.second then 1 else 0)
  }

  lemma DrainNext(events: seq<Event>, n: nat, left: nat, started: nat, all: seq<bool>)
    requires n <= |events| && Run(RaceFrom(RACE_START, events, n), events[n..]) && left > 0
    requires Draining(RaceFrom(RACE_START, events, n), left, started, all)
    ensures n < |events| && events[n].Back? && Run(RaceFrom(RACE_START, events, n + 1), events[n + 1..])
    ensures Draining(RaceFrom(RACE_START, events, n + 1), left - 1, started, all + [events[n].hedge])
    ensures Succeeds(events[n]) <==> events[n].outcome == Success
  {
    var race := RaceFrom(RACE_START, events, n);
    assert events[n..] != [];
    assert events[n..][0] == events[n] && events[n..][1..] == events[n + 1..];
    CountedNext(race, all, events[n]);
  }

  lemma Drained(events: seq<Event>, n: nat, started: nat, all: seq<bool>)
    requires 0 < n <= |events| && Run(RaceFrom(RACE_START, events, n), events[n..])
    requires Draining(RaceFrom(RACE_START, events, n), 0, started, all)
    ensures n == |events| && events[..n] == events && 1 <= started <= 2 && |all| == started
    ensures false in all && (started == 2 <==> true in all)
  {
    Ended(RaceFrom(RACE_START, events, n), events[n..]);
  }

  // The delay before the hedge.

  const HEDGE_SAMPLES := 200
  const HEDGE_MIN_SAMPLE := 20
  const HEDGE_FACTOR := 4
  const SECOND := 1_000_000_000
  const HEDGE_MIN := 5 * SECOND
  const HEDGE_MAX := 30 * SECOND

  predicate Ascending(s: seq<nat>) { forall i, j :: 0 <= i < j < |s| ==> s[i] <= s[j] }

  /** What the samples are sorted by. */
  function Length(sample: nat): int { sample }

  /** The middle of the samples in order, or of its two middles. */
  function Median(sorted: seq<nat>): nat
    requires sorted != []
  {
    var n := |sorted|;
    if n % 2 == 0 then (sorted[n / 2 - 1] + sorted[n / 2]) / 2 else sorted[n / 2]
  }

  function Clamped(x: nat): nat {
    if x < HEDGE_MIN then HEDGE_MIN else if x > HEDGE_MAX then HEDGE_MAX else x
  }

  /** The last n of s. */
  function LastOf(s: seq<nat>, n: nat): seq<nat> { if |s| <= n then s else s[|s| - n..] }

  /** A buffer with the last samples: from its start until it is full, then from next on, around. */
  predicate Wrapped(b: seq<nat>, n: nat, next: nat, last: seq<nat>) {
    && |b| == HEDGE_SAMPLES && n == |last| <= HEDGE_SAMPLES && next < HEDGE_SAMPLES
    && if n < HEDGE_SAMPLES then next == n && b[..n] == last
       else b == last[HEDGE_SAMPLES - next..] + last[..HEDGE_SAMPLES - next]
  }

  lemma WrappedMore(b: seq<nat>, n: nat, next: nat, last: seq<nat>, d: nat)
    requires Wrapped(b, n, next, last)
    ensures Wrapped(b[next := d], if n + 1 < HEDGE_SAMPLES then n + 1 else HEDGE_SAMPLES, (next + 1) % HEDGE_SAMPLES,
                   if n < HEDGE_SAMPLES then last + [d] else last[1..] + [d])
  {
    var c := b[next := d];
    if n < HEDGE_SAMPLES {
      assert c[..n + 1] == b[..n] + [d];
      if n + 1 == HEDGE_SAMPLES { WholeWrapped(c); }
    } else {
      FullMore(b, next, last, d);
    }
  }

  lemma WholeWrapped(c: seq<nat>)
    requires |c| == HEDGE_SAMPLES
    ensures c[HEDGE_SAMPLES..] + c[..HEDGE_SAMPLES] == c && c[..HEDGE_SAMPLES] == c
  {}

  lemma FullMore(b: seq<nat>, next: nat, last: seq<nat>, d: nat)
    requires |last| == HEDGE_SAMPLES && next < HEDGE_SAMPLES
    requires b == last[HEDGE_SAMPLES - next..] + last[..HEDGE_SAMPLES - next]
    ensures var now, m := last[1..] + [d], (next + 1) % HEDGE_SAMPLES;
            b[next := d] == now[HEDGE_SAMPLES - m..] + now[..HEDGE_SAMPLES - m]
  {
    hide *;
    FullTurn(b, HEDGE_SAMPLES, next, (next + 1) % HEDGE_SAMPLES, last, d);
  }

  lemma FullTurn(b: seq<nat>, size: nat, next: nat, m: nat, last: seq<nat>, d: nat)
    requires |last| == size && next < size && m == (if next + 1 == size then 0 else next + 1)
    requires b == last[size - next..] + last[..size - next]
    ensures b[next := d] == (last[1..] + [d])[size - m..] + (last[1..] + [d])[..size - m]
  {
    hide *;
    if next + 1 == size {
      Wrap(b, last, d);
      Around(last[1..] + [d]);
    } else {
      Turn(b, next, last, d);
    }
  }

  lemma Around(c: seq<nat>)
    ensures c[|c|..] + c[..|c|] == c
  {}

  lemma Wrap(b: seq<nat>, last: seq<nat>, d: nat)
    requires last != [] && b == last[1..] + last[..1]
    ensures b[|last| - 1 := d] == last[1..] + [d]
  {}

  lemma Turn(b: seq<nat>, next: nat, last: seq<nat>, d: nat)
    requires next + 1 < |last| && b == last[|last| - next..] + last[..|last| - next]
    ensures var now, m := last[1..] + [d], |last| - next - 1;
            b[next := d] == now[m..] + now[..m]
  {
    var now, m := last[1..] + [d], |last| - next - 1;
    assert now[m..] == last[m + 1..] + [d];
    assert now[..m] == last[1..m + 1];
    assert b[next := d] == (last[m + 1..] + [d]) + last[1..m + 1];
  }

  /** The last successful part durations. */
  class Ring {
    const buf: array<nat>
    var n: nat
    var next: nat
    /** Every sample so far, in order. */
    ghost var samples: seq<nat>

    ghost predicate Valid()
      reads this, buf
    {
      Wrapped(buf[..], n, next, LastOf(samples, HEDGE_SAMPLES))
    }

    constructor ()
      ensures Valid() && samples == [] && fresh(buf)
    {
      buf := new nat[HEDGE_SAMPLES](_ => 0);
      n, next, samples := 0, 0, [];
    }

    /** A sample kept, in the place of the oldest once there are enough. */
    method Add(d: nat)
      requires Valid()
      modifies this, buf
      ensures Valid() && samples == old(samples) + [d]
    {
      hide Wrapped, LastOf;
      WrappedRoom(buf[..], n, next, LastOf(samples, HEDGE_SAMPLES));
      WrappedMore(buf[..], n, next, LastOf(samples, HEDGE_SAMPLES), d);
      LastMore(samples, d);
      ghost var was := buf[..];
      buf[next] := d;
      assert buf[..] == was[next := d];
      next := (next + 1) % HEDGE_SAMPLES;
      n := if n + 1 < HEDGE_SAMPLES then n + 1 else HEDGE_SAMPLES;
      samples := samples + [d];
    }

    lemma WrappedRoom(b: seq<nat>, n: nat, next: nat, last: seq<nat>)
      requires Wrapped(b, n, next, last)
      ensures |b| == HEDGE_SAMPLES && next < HEDGE_SAMPLES && n == |last| <= HEDGE_SAMPLES
    {}

    /** The samples held, in the order of the buffer. */
    method Held() returns (s: seq<nat>)
      requires Valid()
      ensures multiset(s) == multiset(LastOf(samples, HEDGE_SAMPLES))
    {
      s := buf[..n];
      ghost var last := LastOf(samples, HEDGE_SAMPLES);
      if n == HEDGE_SAMPLES {
        var k := HEDGE_SAMPLES - next;
        assert buf[..n] == buf[..];
        Swapped(last, k);
      }
    }

    lemma Swapped(last: seq<nat>, k: nat)
      requires k <= |last|
      ensures multiset(last[k..] + last[..k]) == multiset(last)
    {
      assert last == last[..k] + last[k..];
    }

    /**
     * How long an attempt runs before it is hedged: four times the median of the last 200 samples, at least 5 and
     * at most 30 seconds; 30 seconds until there are 20 samples.
     */
    method Delay() returns (d: nat)
      requires Valid()
      ensures 5 * SECOND <= d <= 30 * SECOND
      ensures |samples| < 20 ==> d == 30 * SECOND
      ensures |samples| >= 20 ==>
                forall s: seq<nat> ::
                  && s != [] && (forall i, j :: 0 <= i < j < |s| ==> s[i] <= s[j])
                  && multiset(s) == multiset(samples[if |samples| > 200 then |samples| - 200 else 0..])
                  ==> d == (if 4 * Median(s) < 5 * SECOND then 5 * SECOND
                            else if 4 * Median(s) > 30 * SECOND then 30 * SECOND else 4 * Median(s))
    {
      if n < HEDGE_MIN_SAMPLE { return HEDGE_MAX; }
      var held := Held();
      hide Wrapped, Median;
      var s := SortedBy(held, Length);
      SortedIs(s);
      assert |s| == |multiset(s)| == |LastOf(samples, HEDGE_SAMPLES)|;
      d := Clamped(HEDGE_FACTOR * Median(s));
      DelayIs(samples, s, d);
    }
  }

  /** However the last samples are sorted, the delay is the same. */
  lemma DelayIs(samples: seq<nat>, s: seq<nat>, d: nat)
    requires s != [] && Ascending(s) && multiset(s) == multiset(LastOf(samples, HEDGE_SAMPLES))
    requires d == Clamped(HEDGE_FACTOR * Median(s))
    ensures forall t: seq<nat> ::
              && t != [] && (forall i, j :: 0 <= i < j < |t| ==> t[i] <= t[j])
              && multiset(t) == multiset(samples[if |samples| > 200 then |samples| - 200 else 0..])
              ==> d == (if 4 * Median(t) < 5 * SECOND then 5 * SECOND
                        else if 4 * Median(t) > 30 * SECOND then 30 * SECOND else 4 * Median(t))
  {
    assert LastOf(samples, HEDGE_SAMPLES) == samples[if |samples| > 200 then |samples| - 200 else 0..];
    hide Median, LastOf;
    forall t: seq<nat> | t != [] && Ascending(t) && multiset(t) == multiset(LastOf(samples, HEDGE_SAMPLES))
      ensures Median(t) == Median(s)
    {
      SortedSame(t, s);
    }
  }

  /**
   * Half of the samples in order are no larger than their median, and half no smaller; it is a sample, or halfway
   * between two.
   */
  lemma MedianMiddle(s: seq<nat>)
    requires s != [] && Ascending(s)
    ensures var n, m := |s|, Median(s);
            && (forall i :: 0 <= i && 2 * i + 1 <= n ==> s[i] <= m)
            && (forall i :: i < n && 2 * i + 1 >= n ==> m <= s[i])
            && (n % 2 == 0 ==> 2 * m <= s[n / 2 - 1] + s[n / 2] <= 2 * m + 1)
  {}

  lemma LastMore(s: seq<nat>, d: nat)
    ensures var was, now := LastOf(s, HEDGE_SAMPLES), LastOf(s + [d], HEDGE_SAMPLES);
            now == if |was| < HEDGE_SAMPLES then was + [d] else was[1..] + [d]
  {}

  lemma SortedIs(s: seq<nat>)
    requires InKeyOrder(s, Length)
    ensures Ascending(s)
  {
    forall i, j | 0 <= i < j < |s| ensures s[i] <= s[j] { assert Length(s[i]) <= Length(s[j]); }
  }

  lemma SameLast(a: seq<nat>, b: seq<nat>)
    requires Ascending(a) && Ascending(b) && multiset(a) == multiset(b) && |a| == |b| > 0
    ensures a[|a| - 1] == b[|b| - 1]
  {
    var p, q := a[|a| - 1], b[|b| - 1];
    assert p in multiset(b) && q in multiset(a) by { assert p in multiset(a) && q in multiset(b); }
    var i := InMultiset(b, p);
    var j := InMultiset(a, q);
  }

  lemma LowestDropped(a: seq<nat>)
    requires a != [] && Ascending(a)
    ensures Ascending(a[..|a| - 1])
  {}

  /** There is one way to sort. */
  lemma {:induction false} SortedSame(a: seq<nat>, b: seq<nat>)
    requires Ascending(a) && Ascending(b) && multiset(a) == multiset(b)
    ensures a == b
    decreases |a|
  {
    assert |a| == |multiset(a)| == |multiset(b)| == |b|;
    if a != [] {
      hide *;
      SameLast(a, b);
      DropLast(a);
      DropLast(b);
      LowestDropped(a);
      LowestDropped(b);
      SortedSame(a[..|a| - 1], b[..|b| - 1]);
    }
  }
}
