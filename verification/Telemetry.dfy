/** The per-job counters of harness/cmp_ecdsa_online/src/telemetry_v2.cpp and
    the four equations that both validators demand of a published document. */
module Telemetry {
  import opened Sequences

  const CELLS := [
    "r1.mta_proofs[victim]|flip_bit", "r1.mta_proofs[victim]|zero", "r1.mta_proofs[victim]|truncate",
    "r4.si|extra_map_key", "dual.schedule|sequential", "dual.schedule|blocked", "dual.schedule|alternating"]

  const VERDICTS := [
    "CLEAN-SIGN", "CLEAN-REJECT", "INVALID-SIGNATURE", "STATE-CORRUPTION", "CRASH", "TIMEOUT", "HARNESS-FAULT"]

  type Count = map<string, nat>

  datatype Counters = Counters(
    execs: nat, doorRejects: nat, decoded: nat,
    selected: Count, applied: Count, notApplied: Count, verdicts: Count)

  function Zeros(keys: seq<string>): (m: Count)
  {
    map k | k in keys :: 0
  }

  function Fresh(): (c: Counters)
  {
    Counters(0, 0, 0, Zeros(CELLS), Zeros(CELLS), Zeros(CELLS), Zeros(VERDICTS))
  }

  function At(m: Count): string -> nat
  {
    (k: string) => if k in m then m[k] else 0
  }

  /** The sum of a counter map over its vocabulary. */
  function Sum(m: Count, keys: seq<string>): (n: nat)
  {
    SumOf(At(m), keys)
  }

  function Incr(m: Count, k: string): (m': Count)
  {
    m[k := At(m)(k) + 1]
  }

  // ----- recording -----

  /** `None` is a null argument. */
  datatype Event = DoorReject | Case(cell: Option<string>, applied: bool, verdict: Option<string>)

  predicate KnownCell(c: Counters, cell: Option<string>) { cell.Some? && cell.value in c.selected }

  predicate KnownVerdict(c: Counters, verdict: Option<string>) { verdict.Some? && verdict.value in c.verdicts }

  /** The counters after one call, and whether the call goes on to publish.
      An unknown verdict is refused only after three counters have moved. */
  function Record(c: Counters, ev: Event): (r: (Counters, bool))
  {
    match ev
    case DoorReject => (c.(execs := c.execs + 1, doorRejects := c.doorRejects + 1), true)
    case Case(cell, applied, verdict) =>
      if !KnownCell(c, cell) then (c, false)
      else
        var c' := c.(execs := c.execs + 1, decoded := c.decoded + 1, selected := Incr(c.selected, cell.value));
        if !applied then (c'.(notApplied := Incr(c.notApplied, cell.value)), true)
        else if !KnownVerdict(c, verdict) then (c', false)
        else (c'.(applied := Incr(c.applied, cell.value), verdicts := Incr(c.verdicts, verdict.value)), true)
  }

  /** What the file system answers during one call: whether the process holds a
      job index, and whether the document gets published. */
  datatype Disk = Disk(claimed: bool, published: bool)

  /** The whole call, with the claim in front and the publication behind. */
  function Attempt(c: Counters, ev: Event, d: Disk): (r: (Counters, bool))
  {
    if !d.claimed then (c, false)
    else
      var (c', ok) := Record(c, ev);
      (c', ok && d.published)
  }

  class Recorder {
    var counters: Counters

    constructor ()
      ensures counters == Fresh()
    {
      counters := Fresh();
    }

    method RecordDoorReject(d: Disk) returns (ok: bool)
      modifies this
      ensures (counters, ok) == Attempt(old(counters), DoorReject, d)
    {
      if !d.claimed { return false; }
      counters := counters.(execs := counters.execs + 1);
      counters := counters.(doorRejects := counters.doorRejects + 1);
      ok := d.published;
    }

    method RecordCase(cell: Option<string>, applied: bool, verdict: Option<string>, d: Disk) returns (ok: bool)
      modifies this
      ensures (counters, ok) == Attempt(old(counters), Case(cell, applied, verdict), d)
    {
      if !d.claimed || !KnownCell(counters, cell) { return false; }
      counters := counters.(execs := counters.execs + 1);
      counters := counters.(decoded := counters.decoded + 1);
      counters := counters.(selected := Incr(counters.selected, cell.value));
      if applied {
        if !KnownVerdict(counters, verdict) { return false; }
        counters := counters.(applied := Incr(counters.applied, cell.value));
        counters := counters.(verdicts := Incr(counters.verdicts, verdict.value));
      } else {
        counters := counters.(notApplied := Incr(counters.notApplied, cell.value));
      }
      ok := d.published;
    }
  }

  // ----- the equations -----

  predicate Vocabulary(c: Counters)
  {
    && c.selected.Keys == c.applied.Keys == c.notApplied.Keys == (set k | k in CELLS)
    && c.verdicts.Keys == (set k | k in VERDICTS)
  }

  predicate Closes(c: Counters)
  {
    && c.doorRejects + c.decoded == c.execs
    && Sum(c.selected, CELLS) == c.decoded
    && (forall k :: k in CELLS ==> At(c.applied)(k) + At(c.notApplied)(k) == At(c.selected)(k))
    && Sum(c.verdicts, VERDICTS) == Sum(c.applied, CELLS)
  }

  lemma VocabularyDistinct()
    ensures Distinct(CELLS) && Distinct(VERDICTS)
  {
    assert |CELLS[0]| == 30 && |CELLS[1]| == 26 && |CELLS[2]| == 30 && |CELLS[3]| == 19 && |CELLS[4]| == 24
      && |CELLS[5]| == 21 && |CELLS[6]| == 25;
    assert CELLS[0][22] == 'f' && CELLS[2][22] == 't';
    assert |VERDICTS[0]| == 10 && |VERDICTS[1]| == 12 && |VERDICTS[2]| == 17 && |VERDICTS[3]| == 16
      && |VERDICTS[4]| == 5 && |VERDICTS[5]| == 7 && |VERDICTS[6]| == 13;
  }

  lemma {:induction false} SumSame(m: Count, n: Count, keys: seq<string>)
    requires forall k :: k in keys ==> At(m)(k) == At(n)(k)
    ensures Sum(m, keys) == Sum(n, keys)
  {
    if keys != [] { SumSame(m, n, keys[1..]); }
  }

  lemma {:induction false} SumIncr(m: Count, k: string, keys: seq<string>)
    requires Distinct(keys)
    ensures Sum(Incr(m, k), keys) == Sum(m, keys) + if k in keys then 1 else 0
  {
    if keys != [] {
      SumIncr(m, k, keys[1..]);
      assert k in keys <==> k == keys[0] || k in keys[1..];
      if k == keys[0] { assert k !in keys[1..]; }
    }
  }

  lemma {:induction false} SumZeros(keys: seq<string>, all: seq<string>)
    ensures Sum(Zeros(all), keys) == 0
  {
    if keys != [] { SumZeros(keys[1..], all); }
  }

  lemma FreshCloses()
    ensures Vocabulary(Fresh()) && Closes(Fresh())
  {
    hide Sum;
    SumZeros(CELLS, CELLS);
    SumZeros(CELLS, VERDICTS);
    SumZeros(VERDICTS, VERDICTS);
  }

  /** The one call that leaves the equations open. */
  predicate RefusedVerdict(c: Counters, ev: Event)
  {
    ev.Case? && KnownCell(c, ev.cell) && ev.applied && !KnownVerdict(c, ev.verdict)
  }

  /** A known cell, recorded as not applied. */
  lemma NotAppliedCloses(c: Counters, cell: string)
    requires Vocabulary(c) && Closes(c) && cell in CELLS
    ensures var c' := c.(execs := c.execs + 1, decoded := c.decoded + 1, selected := Incr(c.selected, cell),
                         notApplied := Incr(c.notApplied, cell));
      Vocabulary(c') && Closes(c')
  {
    hide Sum, At, Incr, CELLS, VERDICTS;
    VocabularyDistinct();
    SumIncr(c.selected, cell, CELLS);
    IncrAt(c.selected, cell);
    IncrAt(c.notApplied, cell);
  }

  /** A known cell, recorded as applied with a known verdict. */
  lemma AppliedCloses(c: Counters, cell: string, verdict: string)
    requires Vocabulary(c) && Closes(c) && cell in CELLS && verdict in VERDICTS
    ensures var c' := c.(execs := c.execs + 1, decoded := c.decoded + 1, selected := Incr(c.selected, cell),
                         applied := Incr(c.applied, cell), verdicts := Incr(c.verdicts, verdict));
      Vocabulary(c') && Closes(c')
  {
    hide Sum, At, Incr, CELLS, VERDICTS;
    VocabularyDistinct();
    SumIncr(c.selected, cell, CELLS);
    IncrAt(c.selected, cell);
    SumIncr(c.applied, cell, CELLS);
    IncrAt(c.applied, cell);
    SumIncr(c.verdicts, verdict, VERDICTS);
    IncrAt(c.verdicts, verdict);
  }

  /** A known cell, counted and then refused. */
  lemma RefusedOpens(c: Counters, cell: string)
    requires Vocabulary(c) && Closes(c) && cell in CELLS
    ensures var c' := c.(execs := c.execs + 1, decoded := c.decoded + 1, selected := Incr(c.selected, cell));
      Vocabulary(c') && !Closes(c')
  {
    hide Sum, At, Incr, CELLS, VERDICTS;
    IncrAt(c.selected, cell);
  }

  /** Every call keeps the equations closed, except exactly a known cell that
      was applied with an unknown verdict; and that call reports failure. */
  lemma RecordClosesIff(c: Counters, ev: Event)
    requires Vocabulary(c) && Closes(c)
    ensures var (c', ok) := Record(c, ev);
      && Vocabulary(c')
      && (Closes(c') <==> !RefusedVerdict(c, ev))
      && (RefusedVerdict(c, ev) ==> !ok)
  {
    hide Sum, At, Incr, CELLS, VERDICTS;
    if ev.Case? && KnownCell(c, ev.cell) {
      var cell := ev.cell.value;
      if !ev.applied {
        NotAppliedCloses(c, cell);
      } else if KnownVerdict(c, ev.verdict) {
        AppliedCloses(c, cell, ev.verdict.value);
      } else {
        RefusedOpens(c, cell);
      }
    }
  }

  /** Such a call on fresh counters. */
  lemma UnknownVerdictOpensTheEquations()
    ensures var (c, ok) := Record(Fresh(), Case(Some(CELLS[0]), true, Some("?"))); !ok && !Closes(c)
  {
    hide Sum, Closes;
    FreshCloses();
    assert CELLS[0] in Fresh().selected;
    assert "?" !in VERDICTS by { assert forall k :: k in VERDICTS ==> |k| > 1; }
    RecordClosesIff(Fresh(), Case(Some(CELLS[0]), true, Some("?")));
  }

  lemma IncrAt(m: Count, k: string)
    ensures At(Incr(m, k))(k) == At(m)(k) + 1
    ensures forall j :: j != k ==> At(Incr(m, k))(j) == At(m)(j)
    ensures Incr(m, k).Keys == m.Keys + {k}
  {
  }
}
