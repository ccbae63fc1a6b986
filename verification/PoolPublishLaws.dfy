/** When exactly the publisher succeeds (scripts/publish_ingest.sh), and exactly
    what it then pushes, without the steps that it takes. */
module PoolPublishLaws {
  import opened Sequences
  import opened BrainPaths
  import opened PathTexts
  import opened PoolTree
  import opened PoolPublish

  /** The path has nothing in it and nothing in its way. */
  predicate Free(base: Tree, p: string) { p !in base && !Clashes(base, p) }

  /** The pool holds the unit as a file already, or has room for it. */
  predicate UnitFits(base: Tree, h: string, u: (string, Bytes))
  {
    var p := "corpus/" + h + "/" + u.0;
    Free(base, p) || (p in base && base[p].mode in {Regular, Executable} && base[p].blob == u.1)
  }

  ghost predicate UnitsFit(base: Tree, h: string, units: seq<(string, Bytes)>)
  {
    && (forall i :: 0 <= i < |units| ==> UnitFits(base, h, units[i]))
    && (forall i, j :: 0 <= i < j < |units| && units[i].0 == units[j].0 ==> units[i].1 == units[j].1)
  }

  /** The unit lies at `p`. */
  ghost predicate UnitAt(h: string, units: seq<(string, Bytes)>, p: string, blob: Bytes)
  {
    exists i :: 0 <= i < |units| && p == "corpus/" + h + "/" + units[i].0 && blob == units[i].1
  }

  predicate Has(t: Tree, p: string, e: Entry) { p in t && t[p] == e }

  /** The base plus exactly the missing units, as ordinary files. */
  ghost predicate WithUnits(base: Tree, h: string, units: seq<(string, Bytes)>, t: Tree)
  {
    && Extends(base, t)
    && forall p, e :: p !in base ==> (Has(t, p, e) <==> e.mode == Regular && UnitAt(h, units, p, e.blob))
  }

  lemma UnitAtFront(h: string, units: seq<(string, Bytes)>, u: (string, Bytes), p: string, blob: Bytes)
    ensures UnitAt(h, units + [u], p, blob) <==>
      UnitAt(h, units, p, blob) || (p == "corpus/" + h + "/" + u.0 && blob == u.1)
  {
    var more := units + [u];
    if UnitAt(h, units, p, blob) {
      var i :| 0 <= i < |units| && p == "corpus/" + h + "/" + units[i].0 && blob == units[i].1;
      assert more[i] == units[i];
    }
    assert more[|units|] == u;
    if UnitAt(h, more, p, blob) {
      var i :| 0 <= i < |more| && p == "corpus/" + h + "/" + more[i].0 && blob == more[i].1;
      assert i < |units| ==> more[i] == units[i];
    }
  }

  lemma SameUnitPath(h: string, a: string, b: string)
    requires "corpus/" + h + "/" + a == "corpus/" + h + "/" + b
    ensures a == b
  {
    var d := "corpus/" + h + "/";
    assert (d + a)[|d|..] == a && (d + b)[|d|..] == b;
  }

  /** Placed units are not in the way of another path of the scripts. */
  lemma WithUnitsClash(base: Tree, h: string, units: seq<(string, Bytes)>, t: Tree, p: string)
    requires WithUnits(base, h, units, t) && IsHarness(h) && ThreeLevels(p)
    requires forall i :: 0 <= i < |units| ==> IsUnitName(units[i].0)
    ensures Clashes(t, p) <==> Clashes(base, p)
  {
    hide ThreeLevels, IsUnitName, IsHarness, UnitAt;
    forall q | q in t && q !in base ensures !(q + "/" <= p) && !(p + "/" <= q) {
      UnitAtLevels(h, units, q, t[q].blob);
      ThreeLevelsNeverNest(p, q);
      ThreeLevelsNeverNest(q, p);
    }
  }

  lemma UnitAtLevels(h: string, units: seq<(string, Bytes)>, q: string, blob: Bytes)
    requires IsHarness(h) && UnitAt(h, units, q, blob)
    requires forall i :: 0 <= i < |units| ==> IsUnitName(units[i].0)
    ensures ThreeLevels(q) && "corpus/" <= q
  {
    hide ThreeLevels, IsUnitName, IsHarness;
    var i :| 0 <= i < |units| && q == "corpus/" + h + "/" + units[i].0 && blob == units[i].1;
    UnitPathShape(h, units[i].0);
    UnitText(h, units[i].0);
    assert q == "corpus/" + (h + "/" + units[i].0);
  }

  /** The units placed so far, and whether they agree with one more. */
  ghost predicate Agrees(units: seq<(string, Bytes)>, u: (string, Bytes))
  {
    forall i :: 0 <= i < |units| && units[i].0 == u.0 ==> units[i].1 == u.1
  }

  lemma FitsOneMore(base: Tree, h: string, units: seq<(string, Bytes)>, u: (string, Bytes))
    ensures UnitsFit(base, h, units + [u]) <==> UnitsFit(base, h, units) && UnitFits(base, h, u) && Agrees(units, u)
  {
    hide UnitFits;
    var more := units + [u];
    assert forall i :: 0 <= i < |units| ==> more[i] == units[i];
    assert more[|units|] == u;
    if UnitsFit(base, h, more) {
      forall i | 0 <= i < |units| && units[i].0 == u.0 ensures units[i].1 == u.1 {
        assert more[i].0 == more[|units|].0;
      }
    }
  }

  /** A path that the pool holds decides by itself. */
  lemma KnownUnit(base: Tree, h: string, units: seq<(string, Bytes)>, t: Tree, u: (string, Bytes))
    requires WithUnits(base, h, units, t) && UnitsFit(base, h, units) && "corpus/" + h + "/" + u.0 in base
    ensures AddUnit(h, Some(t), u) == if UnitFits(base, h, u) then Some(t) else None
    ensures UnitFits(base, h, u) ==> Agrees(units, u) && WithUnits(base, h, units + [u], t)
  {
    hide Clashes, UnitAt;
    var p := "corpus/" + h + "/" + u.0;
    assert CorpusDir(h) + u.0 == p;
    if UnitFits(base, h, u) {
      forall i | 0 <= i < |units| && units[i].0 == u.0 ensures units[i].1 == u.1 {
        assert UnitFits(base, h, units[i]);
      }
      UnitAtMore(h, units, u);
    }
  }

  lemma UnitIndex(h: string, units: seq<(string, Bytes)>, u: (string, Bytes), blob: Bytes) returns (i: nat)
    requires UnitAt(h, units, "corpus/" + h + "/" + u.0, blob)
    ensures i < |units| && units[i] == (u.0, blob)
  {
    i :| 0 <= i < |units| && "corpus/" + h + "/" + u.0 == "corpus/" + h + "/" + units[i].0 && blob == units[i].1;
    SameUnitPath(h, units[i].0, u.0);
  }

  /** One more unit adds its own path only. */
  lemma UnitAtMore(h: string, units: seq<(string, Bytes)>, u: (string, Bytes))
    ensures forall p, blob ::
      UnitAt(h, units + [u], p, blob) <==> UnitAt(h, units, p, blob) || (p == "corpus/" + h + "/" + u.0 && blob == u.1)
  {
    hide UnitAt;
    forall p, blob
      ensures UnitAt(h, units + [u], p, blob) <==>
        UnitAt(h, units, p, blob) || (p == "corpus/" + h + "/" + u.0 && blob == u.1)
    {
      UnitAtFront(h, units, u, p, blob);
    }
  }

  /** A path that an earlier unit has filled. */
  lemma RepeatedUnit(base: Tree, h: string, units: seq<(string, Bytes)>, t: Tree, u: (string, Bytes))
    requires WithUnits(base, h, units, t) && UnitsFit(base, h, units)
    requires var p := "corpus/" + h + "/" + u.0; p !in base && p in t
    ensures AddUnit(h, Some(t), u) == if Agrees(units, u) then Some(t) else None
    ensures UnitFits(base, h, u) && (Agrees(units, u) ==> WithUnits(base, h, units + [u], t))
  {
    hide Clashes, UnitAt, CorpusDir;
    var p := "corpus/" + h + "/" + u.0;
    DirectoryText(h, u.0);
    assert Has(t, p, t[p]);
    var i := UnitIndex(h, units, u, t[p].blob);
    assert UnitFits(base, h, units[i]);
    UnitAtMore(h, units, u);
  }

  lemma DirectoryText(h: string, name: string)
    ensures CorpusDir(h) + name == "corpus/" + h + "/" + name
  {
  }

  lemma NothingNamed(h: string, units: seq<(string, Bytes)>, u: (string, Bytes))
    requires forall blob :: !UnitAt(h, units, "corpus/" + h + "/" + u.0, blob)
    ensures Agrees(units, u)
  {
    forall i | 0 <= i < |units| ensures units[i].0 != u.0 {
      assert !UnitAt(h, units, "corpus/" + h + "/" + u.0, units[i].1);
    }
  }

  lemma NotPlaced(base: Tree, h: string, units: seq<(string, Bytes)>, t: Tree, p: string)
    requires WithUnits(base, h, units, t) && p !in base && p !in t
    ensures forall blob :: !UnitAt(h, units, p, blob)
  {
    hide UnitAt;
    forall blob ensures !UnitAt(h, units, p, blob) {
      assert !Has(t, p, Entry(Regular, blob));
    }
  }

  /** A path that is new. */
  lemma NewUnit(base: Tree, h: string, units: seq<(string, Bytes)>, t: Tree, u: (string, Bytes))
    requires WithUnits(base, h, units, t) && IsHarness(h) && IsUnitName(u.0)
    requires forall i :: 0 <= i < |units| ==> IsUnitName(units[i].0)
    requires var p := "corpus/" + h + "/" + u.0; p !in base && p !in t
    ensures AddUnit(h, Some(t), u) ==
      if UnitFits(base, h, u) then Some(t["corpus/" + h + "/" + u.0 := Entry(Regular, u.1)]) else None
    ensures Agrees(units, u)
    ensures WithUnits(base, h, units + [u], t["corpus/" + h + "/" + u.0 := Entry(Regular, u.1)])
  {
    hide Clashes, IsUnitName, IsHarness, ThreeLevels, UnitAt, CorpusDir, Agrees;
    var p := "corpus/" + h + "/" + u.0;
    DirectoryText(h, u.0);
    UnitPathShape(h, u.0);
    UnitText(h, u.0);
    WithUnitsClash(base, h, units, t, p);
    NotPlaced(base, h, units, t, p);
    NothingNamed(h, units, u);
    UnitAtMore(h, units, u);
  }

  lemma OneMoreUnit(base: Tree, h: string, units: seq<(string, Bytes)>, t: Tree, u: (string, Bytes))
    requires WithUnits(base, h, units, t) && UnitsFit(base, h, units) && IsHarness(h) && IsUnitName(u.0)
    requires forall i :: 0 <= i < |units| ==> IsUnitName(units[i].0)
    ensures var r := AddUnit(h, Some(t), u);
      && (r.Some? <==> UnitsFit(base, h, units + [u]))
      && (r.Some? ==> WithUnits(base, h, units + [u], r.value))
  {
    hide AddUnit, WithUnits, UnitsFit, UnitFits, Agrees, IsUnitName, IsHarness;
    FitsOneMore(base, h, units, u);
    if "corpus/" + h + "/" + u.0 in base {
      KnownUnit(base, h, units, t, u);
    } else if "corpus/" + h + "/" + u.0 in t {
      RepeatedUnit(base, h, units, t, u);
    } else {
      NewUnit(base, h, units, t, u);
    }
  }

  /** All units: whether they can be placed, and the tree that they make. */
  lemma {:induction false} UnitsIff(base: Tree, h: string, units: seq<(string, Bytes)>)
    requires IsHarness(h) && forall i :: 0 <= i < |units| ==> IsUnitName(units[i].0)
    ensures var r := Fold(UnitAdder(h), Some(base), units);
      && (r.Some? <==> UnitsFit(base, h, units))
      && (r.Some? ==> WithUnits(base, h, units, r.value))
  {
    hide AddUnit, UnitFits, IsUnitName, IsHarness, Clashes;
    if units == [] {
      assert forall p, blob :: !UnitAt(h, [], p, blob);
    } else {
      var front, last := units[..|units| - 1], units[|units| - 1];
      assert units == front + [last];
      UnitsIff(base, h, front);
      var s := Fold(UnitAdder(h), Some(base), front);
      FoldSplit(UnitAdder(h), Some(base), front, [last]);
      assert Fold(UnitAdder(h), s, [last]) == Fold(UnitAdder(h), AddUnit(h, s, last), []);
      if s.Some? {
        OneMoreUnit(base, h, front, s.value, last);
      } else {
        StoppedAddsNothing(h, [last]);
        FitsOneMore(base, h, front, last);
      }
    }
  }

  // ----- the documents -----

  /** Both document paths are free and the telemetry passes its check. */
  ghost predicate DocumentsFit(tools: Tools, base: Tree, job: Job)
    requires LaneHarness(job.lane).Some? && IsTuple(Who(job))
  {
    && Free(base, IncidentFor(Who(job)).value)
    && (job.telemetry.Some? ==>
          Free(base, TelemetryFor(Who(job)).value) && tools.telemetryOk(job.telemetry.value, Who(job)))
  }

  /** What the job brings at a path. */
  ghost predicate BroughtAt(job: Job, p: string, blob: Bytes)
    requires LaneHarness(job.lane).Some? && IsTuple(Who(job))
  {
    || UnitAt(Who(job).harness, job.units, p, blob)
    || (p == IncidentFor(Who(job)).value && blob == job.bundle)
    || (job.telemetry == Some(blob) && p == TelemetryFor(Who(job)).value)
  }

  /** The base, unchanged, plus exactly what the job brings that it lacks. */
  ghost predicate WithJob(base: Tree, job: Job, t: Tree)
    requires LaneHarness(job.lane).Some? && IsTuple(Who(job))
  {
    && Extends(base, t)
    && forall p, e :: p !in base ==> (Has(t, p, e) <==> e.mode == Regular && BroughtAt(job, p, e.blob))
  }

  lemma DocumentsClear(base: Tree, who: Tuple, units: seq<(string, Bytes)>, t: Tree)
    requires IsTuple(who) && WithUnits(base, who.harness, units, t)
    requires forall i :: 0 <= i < |units| ==> IsUnitName(units[i].0)
    ensures var i, d := IncidentFor(who).value, TelemetryFor(who).value;
      && i != d && ThreeLevels(i) && ThreeLevels(d)
      && (Free(t, i) <==> Free(base, i)) && (Free(t, d) <==> Free(base, d))
      && forall blob :: !UnitAt(who.harness, units, i, blob) && !UnitAt(who.harness, units, d, blob)
  {
    hide ThreeLevels, IsUnitName, IncidentFor, TelemetryFor, Clashes, UnitAt;
    EvidencePathOf(who);
    var i, d := IncidentFor(who).value, TelemetryFor(who).value;
    EvidencePathLevels(who, i);
    EvidencePathLevels(who, d);
    HeadsDiffer(who);
    WithUnitsClash(base, who.harness, units, t, i);
    WithUnitsClash(base, who.harness, units, t, d);
    forall blob ensures !UnitAt(who.harness, units, i, blob) && !UnitAt(who.harness, units, d, blob) {
      if UnitAt(who.harness, units, i, blob) { UnitAtLevels(who.harness, units, i, blob); }
      if UnitAt(who.harness, units, d, blob) { UnitAtLevels(who.harness, units, d, blob); }
    }
    NotThere(base, who.harness, units, t, i);
    NotThere(base, who.harness, units, t, d);
  }

  lemma NotThere(base: Tree, h: string, units: seq<(string, Bytes)>, t: Tree, p: string)
    requires WithUnits(base, h, units, t) && forall blob :: !UnitAt(h, units, p, blob)
    ensures p in t <==> p in base
  {
    hide UnitAt;
    if p in t { assert Has(t, p, t[p]); }
  }

  lemma StartedJob(tools: Tools, base: Tree, job: Job)
    requires Startable(tools, base, job)
    ensures LaneHarness(job.lane).Some? && IsTuple(Who(job))
    ensures forall i :: 0 <= i < |job.units| ==> IsUnitName(job.units[i].0)
    ensures IncidentFor(Who(job)).Some? && TelemetryFor(Who(job)).Some?
  {
    hide Match;
  }

  /** A startable job is published exactly when each unit is held by the pool
      with its content or new and clear of it, units of one name have one
      content, both document paths are new and clear, and the telemetry passes
      its check; what is pushed is the pool plus exactly what was missing. */
  lemma PublishedIff(tools: Tools, base: Tree, job: Job)
    requires Startable(tools, base, job)
    ensures LaneHarness(job.lane).Some? && IsTuple(Who(job))
    ensures Publish(tools, base, job).Some? <==>
      UnitsFit(base, Who(job).harness, job.units) && DocumentsFit(tools, base, job)
    ensures Publish(tools, base, job).Some? ==> WithJob(base, job, Publish(tools, base, job).value)
  {
    hide Startable, Publish, Clashes, LaneHarness, IsTuple, IsHarness, IsUnitName, IncidentFor, TelemetryFor, UnitAt,
      UnitsFit, ThreeLevels;
    StartedJob(tools, base, job);
    AuditNeverRefuses(tools, base, job);
    var who := Who(job);
    WhoHarness(who);
    UnitsIff(base, who.harness, job.units);
    var units := Fold(UnitAdder(who.harness), Some(base), job.units);
    if units.Some? { DocumentsIff(tools, base, job, units.value); }
  }

  lemma WhoHarness(who: Tuple)
    requires IsTuple(who)
    ensures IsHarness(who.harness)
  {
  }

  lemma DocumentsIff(tools: Tools, base: Tree, job: Job, t: Tree)
    requires Startable(tools, base, job) && LaneHarness(job.lane).Some? && IsTuple(Who(job))
    requires Fold(UnitAdder(Who(job).harness), Some(base), job.units) == Some(t)
    requires WithUnits(base, Who(job).harness, job.units, t)
    ensures Build(tools, base, job).Some? <==> DocumentsFit(tools, base, job)
    ensures Build(tools, base, job).Some? ==> WithJob(base, job, Build(tools, base, job).value)
  {
    hide Startable, Clashes, LaneHarness, IsTuple, IsUnitName, IncidentFor, TelemetryFor, UnitAt, ThreeLevels, Fold,
      UnitAdder, WithUnits, WithJob;
    StartedJob(tools, base, job);
    var who := Who(job);
    DocumentsClear(base, who, job.units, t);
    var i, d := IncidentFor(who).value, TelemetryFor(who).value;
    var e := Entry(Regular, job.bundle);
    ClearOfIncident(t, i, d, e);
    if Build(tools, base, job).Some? {
      WithDocuments(base, job, t, Build(tools, base, job).value);
    }
  }

  lemma ClearOfIncident(t: Tree, i: string, d: string, e: Entry)
    requires i != d && ThreeLevels(i) && ThreeLevels(d)
    ensures Free(t, i) ==> (Free(t[i := e], d) <==> Free(t, d))
  {
    hide ThreeLevels, Clashes;
    var who := Tuple("", "", "", "");
    if Free(t, i) { ClashUnaffected(t, Item(who, i, e), Item(who, d, e)); }
  }

  lemma WithDocuments(base: Tree, job: Job, t: Tree, r: Tree)
    requires LaneHarness(job.lane).Some? && IsTuple(Who(job)) && WithUnits(base, Who(job).harness, job.units, t)
    requires var i, d := IncidentFor(Who(job)).value, TelemetryFor(Who(job)).value;
      && i != d && i !in base && (job.telemetry.Some? ==> d !in base)
      && (forall blob :: !UnitAt(Who(job).harness, job.units, i, blob) && !UnitAt(Who(job).harness, job.units, d, blob))
      && r == if job.telemetry.Some? then t[i := Entry(Regular, job.bundle)][d := Entry(Regular, job.telemetry.value)]
              else t[i := Entry(Regular, job.bundle)]
    ensures WithJob(base, job, r)
  {
    hide LaneHarness, IsTuple, IncidentFor, TelemetryFor, UnitAt;
  }

  // ----- what a job must say of itself -----

  lemma DecimalLength(n: nat)
    ensures n < 10 <==> |Decimal(n)| == 1
    ensures 10 <= n < 100 <==> |Decimal(n)| == 2
  {
    if n >= 10 { assert |Decimal(n / 10)| >= 1; }
    if n >= 100 { assert n / 10 >= 10 && |Decimal(n / 10)| == |Decimal(n / 10 / 10)| + 1; }
  }

  lemma DigitOrder(a: nat, b: nat)
    requires a < 10 && b < 10
    ensures Digit(a) < Digit(b) <==> a < b
    ensures Digit(a) == Digit(b) <==> a == b
  {
    assert Digit(a) as int == '0' as int + a && Digit(b) as int == '0' as int + b;
  }

  lemma ShardOfValue(n: nat)
    ensures ShardInRange(Decimal(n)) <==> n < 25
  {
    DecimalIsUint(n);
    DecimalLength(n);
    if 10 <= n < 100 {
      assert Decimal(n) == [Digit(n / 10), Digit(n % 10)];
      DigitOrder(n / 10, 1);
      DigitOrder(n / 10, 2);
      DigitOrder(n % 10, 5);
    }
  }

  /** A shard is the decimal text of a number below 25. */
  lemma ShardIff(s: string)
    ensures ShardInRange(s) <==> exists n: nat :: n < 25 && Decimal(n) == s
  {
    if ShardInRange(s) {
      var n := UintHasValue(s);
      ShardOfValue(n);
    }
    if exists n: nat :: n < 25 && Decimal(n) == s {
      var n: nat :| n < 25 && Decimal(n) == s;
      ShardOfValue(n);
    }
  }

  /** The three lanes, and no other. */
  lemma LaneIff(lane: string, h: string)
    ensures LaneHarness(lane) == Some(h) <==>
      || (lane == "cmp_general" && h == "cmp_ecdsa_online")
      || (lane == "cmp_r4_tn" && h == "cmp_ecdsa_online_r4_tn")
      || (lane == "cmp_dual" && h == "cmp_ecdsa_online_dual")
  {
    assert "cmp_general"[4] == 'g' && "cmp_r4_tn"[4] == 'r' && "cmp_dual"[4] == 'd';
  }

  /** The harnesses of the pool are those of the lanes. */
  lemma EveryHarnessHasALane(h: string)
    ensures IsHarness(h) <==> exists lane :: LaneHarness(lane) == Some(h)
  {
    if IsHarness(h) {
      var i :| 0 <= i < |HARNESSES| && HARNESSES[i] == h;
      var lane := if i == 0 then "cmp_general" else if i == 1 then "cmp_r4_tn" else "cmp_dual";
      LaneIff(lane, h);
      assert LaneHarness(lane) == Some(h);
    }
  }

  predicate DigitText(s: string) { s != "" && forall c :: c in s ==> c in "0123456789" }

  function BundleText(a: string, b: string, c: string): (s: string)
  {
    "incident-" + a + "-" + b + "-" + c + ".gpg"
  }

  lemma DigitTextIff(s: string)
    ensures IsCapture(Digits, s) <==> DigitText(s)
  {
    forall c ensures IsDigit(c) <==> c in "0123456789" {
      if IsDigit(c) { assert "0123456789"[(c - '0') as int] == c; }
    }
  }

  lemma BundleRendered(a: string, b: string, c: string)
    ensures Render(BUNDLE, [a, b, c]) == BundleText(a, b, c)
  {
    hide RenderFields;
    RenderThree(BUNDLE, a, b, c);
  }

  lemma BundleNamed(a: string, b: string, c: string)
    requires IsCapture(Digits, a) && IsCapture(Digits, b) && IsCapture(Digits, c)
    ensures Match(BUNDLE, BundleText(a, b, c)).Some?
  {
    hide IsCapture, MatchFields, RenderFields;
    BundleRendered(a, b, c);
    MatchRender(BUNDLE.fields, [a, b, c]);
    var s := BundleText(a, b, c);
    assert s == BUNDLE.head + RenderFields(BUNDLE.fields, [a, b, c]);
    assert s[|BUNDLE.head|..] == RenderFields(BUNDLE.fields, [a, b, c]);
  }

  /** A bundle's file is called `incident-`, three numbers and `.gpg`. */
  lemma BundleIff(name: string)
    ensures Match(BUNDLE, name).Some? <==>
      exists a, b, c :: DigitText(a) && DigitText(b) && DigitText(c) && name == BundleText(a, b, c)
  {
    hide IsCapture, DigitText, BundleText, MatchFields, RenderFields;
    if Match(BUNDLE, name).Some? {
      var caps := Match(BUNDLE, name).value;
      RenderMatch(BUNDLE.fields, name[|BUNDLE.head|..]);
      assert caps == [caps[0], caps[1], caps[2]];
      DigitTextIff(caps[0]);
      DigitTextIff(caps[1]);
      DigitTextIff(caps[2]);
      BundleRendered(caps[0], caps[1], caps[2]);
      assert name == BUNDLE.head + name[|BUNDLE.head|..];
      assert name == BundleText(caps[0], caps[1], caps[2]);
    }
    if a, b, c :| DigitText(a) && DigitText(b) && DigitText(c) && name == BundleText(a, b, c) {
      DigitTextIff(a);
      DigitTextIff(b);
      DigitTextIff(c);
      BundleNamed(a, b, c);
    }
  }

  /** The units that the publisher validates: each named by its hash, at most
      4 MiB; at most a hundred thousand of them and 512 MiB together. */
  ghost predicate Validated(tools: Tools, units: seq<(string, Bytes)>)
  {
    && (forall u :: u in units ==>
          && |u.0| == 40 && (forall c :: c in u.0 ==> c in "0123456789abcdef")
          && u.0 == tools.sha1(u.1) && |u.1| <= 4_194_304)
    && |units| <= 100_000 && SumOf(UnitBytes, units) <= 536_870_912
  }

  lemma ValidatedIff(tools: Tools, units: seq<(string, Bytes)>)
    ensures ValidUnits(tools, units) <==> Validated(tools, units)
  {
    hide IsUnitName, SumOf;
    forall i | 0 <= i < |units|
      ensures IsUnitName(units[i].0) <==> |units[i].0| == 40 && forall c :: c in units[i].0 ==> c in "0123456789abcdef"
    {
      UnitNameIsHex(units[i].0);
    }
    if Validated(tools, units) {
      assert forall i :: 0 <= i < |units| ==> units[i] in units;
    }
  }

  /** Exactly which invocations get as far as building a tree. */
  lemma StartableIff(tools: Tools, base: Tree, job: Job)
    ensures Startable(tools, base, job) <==>
      && LaneHarness(job.lane).Some?
      && (exists n: nat :: Decimal(n) == job.run) && (exists n: nat :: Decimal(n) == job.attempt)
      && (exists n: nat :: n < 25 && Decimal(n) == job.shard)
      && Validated(tools, job.units) && tools.bundleOk(job.bundle)
      && (exists a, b, c :: DigitText(a) && DigitText(b) && DigitText(c) && job.bundleName == BundleText(a, b, c))
      && "corpus" !in base && "corpus/" + LaneHarness(job.lane).value !in base
  {
    hide LaneHarness, IsUint, IsHarness, ShardInRange, ValidUnits, Validated, Match, Decimal, DigitText, BundleText;
    ValidatedIff(tools, job.units);
    BundleIff(job.bundleName);
    UintIsDecimal(job.run);
    UintIsDecimal(job.attempt);
    UintIsDecimal(job.shard);
    ShardIff(job.shard);
    if LaneHarness(job.lane).Some? { EveryHarnessHasALane(LaneHarness(job.lane).value); }
  }

  /** And all others push nothing. */
  lemma UnstartablePushesNothing(tools: Tools, base: Tree, job: Job)
    requires !Startable(tools, base, job)
    ensures Publish(tools, base, job) == None
  {
    hide Startable;
  }
}
