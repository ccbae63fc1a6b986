/** The totals of several jobs' counters, as both telemetry scripts add them up. */
module Totalling {
  import opened Sequences
  import opened Telemetry

  function CountOf(f: Counters -> Count, key: string): Counters -> nat
  {
    (c: Counters) => At(f(c))(key)
  }

  function SelectedOf(c: Counters): Count { c.selected }
  function AppliedOf(c: Counters): Count { c.applied }
  function NotAppliedOf(c: Counters): Count { c.notApplied }
  function VerdictsOf(c: Counters): Count { c.verdicts }
  function ExecsOf(c: Counters): nat { c.execs }
  function DoorRejectsOf(c: Counters): nat { c.doorRejects }
  function DecodedOf(c: Counters): nat { c.decoded }

  function SumCounts(f: Counters -> Count, keys: seq<string>, cs: seq<Counters>): (m: Count)
  {
    map k | k in keys :: SumOf(CountOf(f, k), cs)
  }

  function Total(cs: seq<Counters>): (c: Counters)
  {
    Counters(SumOf(ExecsOf, cs), SumOf(DoorRejectsOf, cs), SumOf(DecodedOf, cs),
             SumCounts(SelectedOf, CELLS, cs), SumCounts(AppliedOf, CELLS, cs), SumCounts(NotAppliedOf, CELLS, cs),
             SumCounts(VerdictsOf, VERDICTS, cs))
  }

  lemma TotalAt(f: Counters -> Count, keys: seq<string>, cs: seq<Counters>, k: string)
    requires k in keys
    ensures At(SumCounts(f, keys, cs))(k) == SumOf(CountOf(f, k), cs)
  {
  }

  function KeySum(f: Counters -> Count, keys: seq<string>): Counters -> nat
  {
    (c: Counters) => Sum(f(c), keys)
  }

  lemma {:induction false} SumOfNothing(f: Counters -> Count, keys: seq<string>, cs: seq<Counters>)
    requires keys == []
    ensures SumOf(KeySum(f, keys), cs) == 0
  {
    if cs != [] {
      assert KeySum(f, keys)(cs[0]) == Sum(f(cs[0]), keys) == 0;
      SumOfNothing(f, keys, cs[1..]);
    }
  }

  lemma {:induction false} KeySumSplit(f: Counters -> Count, keys: seq<string>, cs: seq<Counters>)
    requires keys != []
    ensures SumOf(KeySum(f, keys), cs) == SumOf(CountOf(f, keys[0]), cs) + SumOf(KeySum(f, keys[1..]), cs)
  {
    if cs != [] {
      var m := f(cs[0]);
      assert KeySum(f, keys)(cs[0]) == Sum(m, keys) == At(m)(keys[0]) + Sum(m, keys[1..]);
      assert KeySum(f, keys[1..])(cs[0]) == Sum(m, keys[1..]);
      KeySumSplit(f, keys, cs[1..]);
    }
  }

  /** Summing over jobs and then over keys is summing over keys and then jobs. */
  lemma {:induction false} SumExchange(f: Counters -> Count, keys: seq<string>, all: seq<string>, cs: seq<Counters>)
    requires forall k :: k in keys ==> k in all
    ensures Sum(SumCounts(f, all, cs), keys) == SumOf(KeySum(f, keys), cs)
    decreases |keys|
  {
    hide At;
    if keys == [] {
      SumOfNothing(f, keys, cs);
    } else {
      SumExchange(f, keys[1..], all, cs);
      TotalAt(f, all, cs, keys[0]);
      KeySumSplit(f, keys, cs);
    }
  }

  /** Sums that agree job by job agree in total. */
  lemma {:induction false} SumsAgree(f: Counters -> nat, g: Counters -> nat, h: Counters -> nat, cs: seq<Counters>)
    requires forall i :: 0 <= i < |cs| ==> f(cs[i]) + g(cs[i]) == h(cs[i])
    ensures SumOf(f, cs) + SumOf(g, cs) == SumOf(h, cs)
  {
    if cs != [] { SumsAgree(f, g, h, cs[1..]); }
  }

  lemma {:induction false} SumsEqual(f: Counters -> nat, g: Counters -> nat, cs: seq<Counters>)
    requires forall i :: 0 <= i < |cs| ==> f(cs[i]) == g(cs[i])
    ensures SumOf(f, cs) == SumOf(g, cs)
  {
    if cs != [] { SumsEqual(f, g, cs[1..]); }
  }

  /** The totals of closing counters close the same four equations. */
  lemma TotalCloses(cs: seq<Counters>)
    requires forall i :: 0 <= i < |cs| ==> Closes(cs[i])
    ensures Vocabulary(Total(cs)) && Closes(Total(cs))
  {
    hide Sum, At, SumOf, SumCounts, CELLS, VERDICTS;
    var t := Total(cs);
    SumsAgree(DoorRejectsOf, DecodedOf, ExecsOf, cs);
    SumExchange(SelectedOf, CELLS, CELLS, cs);
    forall i | 0 <= i < |cs|
      ensures KeySum(SelectedOf, CELLS)(cs[i]) == DecodedOf(cs[i])
      ensures KeySum(VerdictsOf, VERDICTS)(cs[i]) == KeySum(AppliedOf, CELLS)(cs[i])
    {
      KeySums(cs[i]);
    }
    SumsEqual(KeySum(SelectedOf, CELLS), DecodedOf, cs);
    SumExchange(VerdictsOf, VERDICTS, VERDICTS, cs);
    SumExchange(AppliedOf, CELLS, CELLS, cs);
    SumsEqual(KeySum(VerdictsOf, VERDICTS), KeySum(AppliedOf, CELLS), cs);
    forall k | k in CELLS ensures At(t.applied)(k) + At(t.notApplied)(k) == At(t.selected)(k) {
      TotalAt(AppliedOf, CELLS, cs, k);
      TotalAt(NotAppliedOf, CELLS, cs, k);
      TotalAt(SelectedOf, CELLS, cs, k);
      forall i | 0 <= i < |cs|
        ensures CountOf(AppliedOf, k)(cs[i]) + CountOf(NotAppliedOf, k)(cs[i]) == CountOf(SelectedOf, k)(cs[i])
      {
        KeyCounts(cs[i], k);
      }
      SumsAgree(CountOf(AppliedOf, k), CountOf(NotAppliedOf, k), CountOf(SelectedOf, k), cs);
    }
    TotalKeys(cs);
  }

  lemma KeySums(c: Counters)
    ensures KeySum(SelectedOf, CELLS)(c) == Sum(c.selected, CELLS)
    ensures KeySum(AppliedOf, CELLS)(c) == Sum(c.applied, CELLS)
    ensures KeySum(VerdictsOf, VERDICTS)(c) == Sum(c.verdicts, VERDICTS)
  {
    hide Sum;
    var s, a, v := SelectedOf, AppliedOf, VerdictsOf;
    assert s(c) == c.selected && a(c) == c.applied && v(c) == c.verdicts;
  }

  lemma KeyCounts(c: Counters, k: string)
    ensures CountOf(SelectedOf, k)(c) == At(c.selected)(k)
    ensures CountOf(AppliedOf, k)(c) == At(c.applied)(k)
    ensures CountOf(NotAppliedOf, k)(c) == At(c.notApplied)(k)
  {
    var s, a, n := SelectedOf, AppliedOf, NotAppliedOf;
    assert s(c) == c.selected && a(c) == c.applied && n(c) == c.notApplied;
  }

  lemma TotalKeys(cs: seq<Counters>)
    ensures Vocabulary(Total(cs))
  {
    hide SumOf, CELLS, VERDICTS;
  }
}
