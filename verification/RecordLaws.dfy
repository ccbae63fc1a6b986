/** What the counters of a job say (harness/cmp_ecdsa_online/src/telemetry_v2.cpp):
    after any sequence of successful records each of them is the number of the
    events that it is named after. */
module RecordLaws {
  import opened Sequences
  import opened Telemetry

  /** All events in order, or nothing if one was refused. */
  function RecordAll(c: Counters, evs: seq<Event>): (r: Option<Counters>)
  {
    if evs == [] then Some(c)
    else match RecordAll(c, evs[..|evs| - 1])
      case None => None
      case Some(d) =>
        var (d', ok) := Record(d, evs[|evs| - 1]);
        if ok then Some(d') else None
  }

  function Rejects(): Event -> nat { (e: Event) => if e.DoorReject? then 1 else 0 }

  function Cases(): Event -> nat { (e: Event) => if e.Case? then 1 else 0 }

  function CasesOf(k: string): Event -> nat { (e: Event) => if e.Case? && e.cell == Some(k) then 1 else 0 }

  function AppliedTo(k: string): Event -> nat
  {
    (e: Event) => if e.Case? && e.cell == Some(k) && e.applied then 1 else 0
  }

  function NotAppliedTo(k: string): Event -> nat
  {
    (e: Event) => if e.Case? && e.cell == Some(k) && !e.applied then 1 else 0
  }

  /** The verdict of a case counts only if the case was applied. */
  function VerdictsOf(v: string): Event -> nat
  {
    (e: Event) => if e.Case? && e.applied && e.verdict == Some(v) then 1 else 0
  }

  ghost predicate CountsAre(c: Counters, evs: seq<Event>)
  {
    && c.execs == |evs| && c.doorRejects == SumOf(Rejects(), evs) && c.decoded == SumOf(Cases(), evs)
    && (forall k :: k in CELLS ==> At(c.selected)(k) == SumOf(CasesOf(k), evs))
    && (forall k :: k in CELLS ==> At(c.applied)(k) == SumOf(AppliedTo(k), evs))
    && (forall k :: k in CELLS ==> At(c.notApplied)(k) == SumOf(NotAppliedTo(k), evs))
    && (forall v :: v in VERDICTS ==> At(c.verdicts)(v) == SumOf(VerdictsOf(v), evs))
  }

  /** One event more moves each counter by what the event counts for. */
  lemma RecordMoves(c: Counters, e: Event)
    requires Record(c, e).1
    ensures var d := Record(c, e).0;
      && d.execs == c.execs + 1 && d.doorRejects == c.doorRejects + Rejects()(e) && d.decoded == c.decoded + Cases()(e)
      && (forall k :: At(d.selected)(k) == At(c.selected)(k) + CasesOf(k)(e))
      && (forall k :: At(d.applied)(k) == At(c.applied)(k) + AppliedTo(k)(e))
      && (forall k :: At(d.notApplied)(k) == At(c.notApplied)(k) + NotAppliedTo(k)(e))
      && (forall v :: At(d.verdicts)(v) == At(c.verdicts)(v) + VerdictsOf(v)(e))
  {
    hide At, Incr;
    if e.Case? {
      IncrAt(c.selected, e.cell.value);
      IncrAt(c.applied, e.cell.value);
      IncrAt(c.notApplied, e.cell.value);
      if e.applied { IncrAt(c.verdicts, e.verdict.value); }
    }
  }

  lemma FreshCounts()
    ensures CountsAre(Fresh(), [])
  {
    hide CELLS, VERDICTS;
  }

  lemma CountsGrow(c: Counters, evs: seq<Event>, e: Event)
    requires CountsAre(c, evs) && Record(c, e).1
    ensures CountsAre(Record(c, e).0, evs + [e])
  {
    hide Record, At, CELLS, VERDICTS, SumOf;
    RecordMoves(c, e);
    SumLast(Rejects(), evs, e);
    SumLast(Cases(), evs, e);
    forall k ensures SumOf(CasesOf(k), evs + [e]) == SumOf(CasesOf(k), evs) + CasesOf(k)(e) {
      SumLast(CasesOf(k), evs, e);
    }
    forall k ensures SumOf(AppliedTo(k), evs + [e]) == SumOf(AppliedTo(k), evs) + AppliedTo(k)(e) {
      SumLast(AppliedTo(k), evs, e);
    }
    forall k ensures SumOf(NotAppliedTo(k), evs + [e]) == SumOf(NotAppliedTo(k), evs) + NotAppliedTo(k)(e) {
      SumLast(NotAppliedTo(k), evs, e);
    }
    forall v ensures SumOf(VerdictsOf(v), evs + [e]) == SumOf(VerdictsOf(v), evs) + VerdictsOf(v)(e) {
      SumLast(VerdictsOf(v), evs, e);
    }
  }

  /** Every counter is the number of its events. */
  lemma {:induction false} RecordedCounts(evs: seq<Event>)
    requires RecordAll(Fresh(), evs).Some?
    ensures CountsAre(RecordAll(Fresh(), evs).value, evs)
  {
    hide Record, CountsAre, Fresh;
    FreshCounts();
    if evs != [] {
      var front, last := evs[..|evs| - 1], evs[|evs| - 1];
      assert evs == front + [last];
      RecordedCounts(front);
      CountsGrow(RecordAll(Fresh(), front).value, front, last);
    }
  }

  /** A record is refused exactly on an unknown cell, or on an applied case with
      an unknown verdict. */
  lemma RefusedIff(c: Counters, e: Event)
    requires Vocabulary(c)
    ensures !Record(c, e).1 <==>
      e.Case? && (e.cell.None? || e.cell.value !in CELLS
                  || (e.applied && (e.verdict.None? || e.verdict.value !in VERDICTS)))
  {
    hide CELLS, VERDICTS;
  }
}
