/** The overlap sweep of scripts/validate_rt4.py: sort the starts and ends of
    all jobs and run a counter over them.  The sweep is proved to return the
    maximum, over all instants, of the number of half-open job intervals that
    contain the instant. */
module Overlap {
  import opened Sequences

  datatype Interval = Interval(started: int, updated: int)

  datatype Event = Event(time: int, delta: int)

  /** At one instant the ends come before the starts. */
  predicate Before(a: Event, b: Event)
  {
    a.time < b.time || (a.time == b.time && a.delta <= b.delta)
  }

  function Events(jobs: seq<Interval>): (es: seq<Event>)
  {
    if jobs == [] then [] else [Event(jobs[0].started, 1), Event(jobs[0].updated, -1)] + Events(jobs[1..])
  }

  // ----- the meaning -----

  function Contains(t: int): Interval -> nat
  {
    (j: Interval) => if j.started <= t < j.updated then 1 else 0
  }

  /** How many jobs are running at the instant `t`. */
  function Active(jobs: seq<Interval>, t: int): (n: nat)
  {
    SumOf(Contains(t), jobs)
  }

  ghost predicate Parsed(jobs: seq<Interval>)
  {
    forall i :: 0 <= i < |jobs| ==> jobs[i].started < jobs[i].updated
  }

  ghost predicate IsMaximum(jobs: seq<Interval>, m: nat)
  {
    (forall t :: Active(jobs, t) <= m) && exists t :: Active(jobs, t) == m
  }

  // ----- counting events -----

  function StartBy(t: int): Event -> nat
  {
    (e: Event) => if e.delta == 1 && e.time <= t then 1 else 0
  }

  function EndBy(t: int): Event -> nat
  {
    (e: Event) => if e.delta == -1 && e.time <= t then 1 else 0
  }

  function IsStart(e: Event): nat { if e.delta == 1 then 1 else 0 }

  function IsEnd(e: Event): nat { if e.delta == -1 then 1 else 0 }

  function Balance(es: seq<Event>): (n: int)
  {
    SumOf(IsStart, es) - SumOf(IsEnd, es)
  }

  ghost predicate Deltas(es: seq<Event>)
  {
    forall i :: 0 <= i < |es| ==> es[i].delta == 1 || es[i].delta == -1
  }

  lemma {:induction false} EventDeltas(jobs: seq<Interval>)
    ensures Deltas(Events(jobs)) && Balance(Events(jobs)) == 0
  {
    if jobs != [] { EventDeltas(jobs[1..]); TwoEvents(IsStart, jobs); TwoEvents(IsEnd, jobs); }
  }

  lemma TwoEvents(f: Event -> nat, jobs: seq<Interval>)
    requires jobs != []
    ensures SumOf(f, Events(jobs)) ==
      f(Event(jobs[0].started, 1)) + f(Event(jobs[0].updated, -1)) + SumOf(f, Events(jobs[1..]))
  {
    var s, u := Event(jobs[0].started, 1), Event(jobs[0].updated, -1);
    SumSplit(f, [s, u], Events(jobs[1..]));
    assert [s, u][1..] == [u];
  }

  /** The running jobs at `t` are those started by then minus those ended. */
  lemma {:induction false} ActiveIsDifference(jobs: seq<Interval>, t: int)
    requires Parsed(jobs)
    ensures Active(jobs, t) == SumOf(StartBy(t), Events(jobs)) - SumOf(EndBy(t), Events(jobs))
  {
    if jobs != [] {
      ActiveIsDifference(jobs[1..], t);
      TwoEvents(StartBy(t), jobs);
      TwoEvents(EndBy(t), jobs);
    }
  }

  /** Whoever has ended by `t` had started before it. */
  lemma {:induction false} EndedHadStarted(jobs: seq<Interval>, t: int)
    requires Parsed(jobs)
    ensures SumOf(EndBy(t), Events(jobs)) <= SumOf(StartBy(t - 1), Events(jobs))
  {
    if jobs != [] {
      EndedHadStarted(jobs[1..], t);
      TwoEvents(StartBy(t - 1), jobs);
      TwoEvents(EndBy(t), jobs);
    }
  }

  lemma BeforeIsTotalOrder()
    ensures TotalOrder(Before)
  {
  }

  // ----- sums over a prefix and over the whole -----

  lemma {:induction false} SumBounds<T>(f: T -> nat, g: T -> nat, xs: seq<T>)
    requires forall i :: 0 <= i < |xs| ==> f(xs[i]) <= g(xs[i])
    ensures SumOf(f, xs) <= SumOf(g, xs)
  {
    if xs != [] { SumBounds(f, g, xs[1..]); }
  }

  lemma {:induction false} SumNothing<T>(f: T -> nat, xs: seq<T>)
    requires forall i :: 0 <= i < |xs| ==> f(xs[i]) == 0
    ensures SumOf(f, xs) == 0
  {
    if xs != [] { SumNothing(f, xs[1..]); }
  }

  /** If `f` counts nothing after the prefix and no more than `g` within it,
      its total is bounded by the prefix count of `g`. */
  lemma PrefixCovers(f: Event -> nat, g: Event -> nat, es: seq<Event>, k: nat)
    requires k <= |es|
    requires forall i :: 0 <= i < k ==> f(es[i]) <= g(es[i])
    requires forall i :: k <= i < |es| ==> f(es[i]) == 0
    ensures SumOf(f, es) <= SumOf(g, es[..k])
  {
    assert es == es[..k] + es[k..];
    SumSplit(f, es[..k], es[k..]);
    SumBounds(f, g, es[..k]);
    SumNothing(f, es[k..]);
  }

  /** If `f` counts at least what `g` does within the prefix, its total is at
      least the prefix count of `g`. */
  lemma PrefixCounts(f: Event -> nat, g: Event -> nat, es: seq<Event>, k: nat)
    requires k <= |es|
    requires forall i :: 0 <= i < k ==> g(es[i]) <= f(es[i])
    ensures SumOf(g, es[..k]) <= SumOf(f, es)
  {
    assert es == es[..k] + es[k..];
    SumSplit(f, es[..k], es[k..]);
    SumBounds(g, f, es[..k]);
  }

  /** The sorted events of a set of parsed jobs. */
  ghost predicate Timeline(jobs: seq<Interval>, es: seq<Event>)
  {
    Parsed(jobs) && multiset(es) == multiset(Events(jobs)) && Sorted(Before, es)
  }

  lemma TimelineFacts(jobs: seq<Interval>, es: seq<Event>, t: int)
    requires Timeline(jobs, es)
    ensures Deltas(es) && Balance(es) == 0
    ensures Active(jobs, t) == SumOf(StartBy(t), es) - SumOf(EndBy(t), es)
    ensures SumOf(EndBy(t), es) <= SumOf(StartBy(t - 1), es)
  {
    hide Events, Active, Contains, StartBy, EndBy, SumOf;
    EventDeltas(jobs);
    forall i | 0 <= i < |es| ensures es[i].delta == 1 || es[i].delta == -1 {
      assert es[i] in multiset(es);
      assert es[i] in Events(jobs);
    }
    SumPermutation(IsStart, es, Events(jobs));
    SumPermutation(IsEnd, es, Events(jobs));
    SumPermutation(StartBy(t), es, Events(jobs));
    SumPermutation(StartBy(t - 1), es, Events(jobs));
    SumPermutation(EndBy(t), es, Events(jobs));
    ActiveIsDifference(jobs, t);
    EndedHadStarted(jobs, t);
  }

  /** At a start the counter does not exceed the jobs running at that instant. */
  lemma StartWitness(jobs: seq<Interval>, es: seq<Event>, k: nat)
    requires Timeline(jobs, es) && k < |es| && es[k].delta == 1
    ensures Balance(es[..k + 1]) <= Active(jobs, es[k].time)
  {
    hide SumOf, Active, Events, Parsed;
    var t := es[k].time;
    TimelineFacts(jobs, es, t);
    assert forall i :: 0 <= i < k + 1 ==> es[i].time <= t;
    assert forall i :: k < i < |es| ==> es[i].time > t || es[i].delta == 1;
    PrefixCovers(EndBy(t), IsEnd, es, k + 1);
    PrefixCounts(StartBy(t), IsStart, es, k + 1);
  }

  /** At an end the counter has not become negative. */
  lemma EndWitness(jobs: seq<Interval>, es: seq<Event>, k: nat)
    requires Timeline(jobs, es) && k < |es| && es[k].delta == -1
    ensures Balance(es[..k + 1]) >= 0
  {
    hide SumOf, Active, Events, Parsed;
    var t := es[k].time;
    TimelineFacts(jobs, es, t);
    assert forall i :: 0 <= i < k + 1 ==> es[i].time <= t;
    assert forall i :: k < i < |es| ==> es[i].time >= t;
    PrefixCovers(StartBy(t - 1), IsStart, es, k + 1);
    PrefixCounts(EndBy(t), IsEnd, es, k + 1);
  }

  /** Every instant is seen by the counter after some prefix. */
  lemma InstantSeen(jobs: seq<Interval>, es: seq<Event>, t: int) returns (k: nat)
    requires Timeline(jobs, es)
    ensures k <= |es| && Active(jobs, t) <= Balance(es[..k])
  {
    hide SumOf, Active, Events, Parsed;
    TimelineFacts(jobs, es, t);
    k := 0;
    while k < |es| && es[k].time <= t
      invariant k <= |es| && forall i :: 0 <= i < k ==> es[i].time <= t
    {
      k := k + 1;
    }
    assert forall i :: k <= i < |es| ==> es[i].time > t;
    PrefixCovers(StartBy(t), IsStart, es, k);
    PrefixCounts(EndBy(t), IsEnd, es, k);
  }

  lemma BalanceStep(es: seq<Event>, k: nat)
    requires k < |es| && Deltas(es)
    ensures Balance(es[..k + 1]) == Balance(es[..k]) + es[k].delta
  {
    assert es[..k + 1] == es[..k] + [es[k]];
    SumLast(IsStart, es[..k], es[k]);
    SumLast(IsEnd, es[..k], es[k]);
  }

  // ----- the sweep -----

  datatype SweepError = InvalidIntervalSet

  /** For parsed documents neither rejection can be reached and the result is
      the maximum overlap. */
  method MaxOverlap(jobs: seq<Interval>) returns (r: Result<nat, SweepError>)
    ensures Parsed(jobs) ==> r.Ok? && IsMaximum(jobs, r.value)
  {
    hide SumOf, Active, Events, Sort, Parsed, Before;
    var events := Sort(Before, Events(jobs));
    BeforeIsTotalOrder();
    SortSorts(Before, Events(jobs));
    ghost var ok := Parsed(jobs);
    assert ok ==> Timeline(jobs, events);
    if ok { TimelineFacts(jobs, events, 0); }
    var active, maximum := 0, 0;
    ghost var instant := 0;
    assert events[..0] == [] && Balance([]) == 0 by { EmptyBalance(); }
    for i := 0 to |events|
      invariant maximum >= 0
      invariant ok ==> active == Balance(events[..i]) && active >= 0
      invariant ok ==> forall k :: 0 <= k <= i ==> Balance(events[..k]) <= maximum
      invariant ok ==> maximum <= Active(jobs, instant)
    {
      active := active + events[i].delta;
      if ok {
        BalanceStep(events, i);
        if events[i].delta == 1 { StartWitness(jobs, events, i); } else { EndWitness(jobs, events, i); }
      }
      if active < 0 { return Err(InvalidIntervalSet); }
      if active > maximum { maximum, instant := active, events[i].time; }
    }
    assert events[..|events|] == events;
    if active != 0 { return Err(InvalidIntervalSet); }
    r := Ok(maximum);
    if ok {
      forall t ensures Active(jobs, t) <= maximum {
        var k := InstantSeen(jobs, events, t);
      }
    }
  }

  lemma EmptyBalance()
    ensures Balance([]) == 0
  {
  }
}
