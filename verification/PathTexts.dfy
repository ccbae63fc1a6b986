/** The names of the private pool as literal text (scripts/brain_paths.sh): what
    each generator prints, what the legacy parser accepts, and which strings are
    canonical numbers. */
module PathTexts {
  import opened Sequences
  import opened BrainPaths

  // ----- canonical numbers -----

  function Digit(d: nat): (c: char)
    requires d < 10
  {
    "0123456789"[d]
  }

  function Decimal(n: nat): (s: string)
  {
    if n < 10 then [Digit(n)] else Decimal(n / 10) + [Digit(n % 10)]
  }

  lemma DigitsOnly(c: char)
    ensures IsDigit(c) <==> exists d: nat :: d < 10 && Digit(d) == c
  {
    if IsDigit(c) {
      var d := (c - '0') as nat;
      assert Digit(d) == c;
    }
  }

  lemma {:induction false} DecimalIsUint(n: nat)
    ensures IsUint(Decimal(n)) && (n > 0 ==> Decimal(n)[0] != '0')
  {
    if n < 10 {
      DigitsOnly(Digit(n));
    } else {
      DecimalIsUint(n / 10);
      DigitsOnly(Digit(n % 10));
    }
  }

  lemma {:induction false} UintHasValue(s: string) returns (n: nat)
    requires IsUint(s)
    ensures Decimal(n) == s && (n > 0 <==> s[0] != '0')
    decreases |s|
  {
    var last := s[|s| - 1];
    DigitsOnly(last);
    var d: nat :| d < 10 && Digit(d) == last;
    if |s| == 1 {
      n := d;
      assert s == [last];
    } else {
      var front := s[..|s| - 1];
      var m := UintHasValue(front);
      n := 10 * m + d;
      assert s == front + [last];
      assert n / 10 == m && n % 10 == d;
    }
  }

  /** Canonical numbers are the decimal texts of the naturals. */
  lemma UintIsDecimal(s: string)
    ensures IsUint(s) <==> exists n: nat :: Decimal(n) == s
  {
    if IsUint(s) { var n := UintHasValue(s); }
    if exists n: nat :: Decimal(n) == s {
      var n: nat :| Decimal(n) == s;
      DecimalIsUint(n);
    }
  }

  /** Unit names are forty lower-case hexadecimal digits. */
  lemma UnitNameIsHex(s: string)
    ensures IsUnitName(s) <==> |s| == 40 && forall c :: c in s ==> c in "0123456789abcdef"
  {
    forall c ensures IsHexChar(c) <==> c in "0123456789abcdef" { HexDigits(c); }
  }

  lemma HexDigits(c: char)
    ensures IsHexChar(c) <==> c in "0123456789abcdef"
  {
    var hex := "0123456789abcdef";
    if 'a' <= c <= 'f' {
      assert hex[10 + (c - 'a') as int] == c;
    } else if '0' <= c <= '9' {
      assert hex[(c - '0') as int] == c;
    }
  }

  // ----- what the generators print -----

  lemma RenderStep(fs: seq<Field>, a: string, rest: seq<string>)
    requires fs != [] && |rest| == |fs| - 1
    ensures RenderFields(fs, [a] + rest) == a + fs[0].sep + RenderFields(fs[1..], rest)
  {
    assert ([a] + rest)[1..] == rest;
  }

  lemma FieldsThree(fs: seq<Field>, a: string, b: string, c: string)
    requires |fs| == 3
    ensures RenderFields(fs, [a, b, c]) == a + fs[0].sep + b + fs[1].sep + c + fs[2].sep
  {
    hide RenderFields;
    RenderStep(fs, a, [b, c]);
    RenderStep(fs[1..], b, [c]);
    RenderStep(fs[1..][1..], c, []);
    RenderNothing(fs[1..][1..][1..]);
    assert [a] + [b, c] == [a, b, c] && [b] + [c] == [b, c] && [c] + [] == [c];
  }

  lemma RenderNothing(fs: seq<Field>)
    requires fs == []
    ensures RenderFields(fs, []) == ""
  {
  }

  lemma RenderThree(p: Pattern, a: string, b: string, c: string)
    requires |p.fields| == 3
    ensures Render(p, [a, b, c]) ==
      p.head + a + p.fields[0].sep + b + p.fields[1].sep + c + p.fields[2].sep
  {
    hide RenderFields;
    FieldsThree(p.fields, a, b, c);
  }

  lemma RenderFour(p: Pattern, a: string, b: string, c: string, d: string)
    requires |p.fields| == 4
    ensures Render(p, [a, b, c, d]) ==
      p.head + a + p.fields[0].sep + b + p.fields[1].sep + c + p.fields[2].sep + d + p.fields[3].sep
  {
    hide RenderFields;
    FieldsThree(p.fields[1..], b, c, d);
    RenderStep(p.fields, a, [b, c, d]);
    assert [a] + [b, c, d] == [a, b, c, d];
  }

  lemma BranchText(t: Tuple)
    requires IsTuple(t)
    ensures BranchFor(t) ==
      Some("ingest/run-" + t.run + "/attempt-" + t.attempt + "/" + t.harness + "/shard-" + t.shard)
  {
    hide IsTuple, RenderFields;
    RenderFour(BRANCH, t.run, t.attempt, t.harness, t.shard);
    var s := "ingest/run-" + t.run + "/attempt-" + t.attempt + "/" + t.harness + "/shard-" + t.shard;
    assert s + "" == s;
  }

  lemma IncidentText(t: Tuple)
    requires IsTuple(t)
    ensures IncidentFor(t) ==
      Some("incidents/run-" + t.run + "/" + t.harness + "-attempt-" + t.attempt + "-shard-" + t.shard + ".gpg")
  {
    hide IsTuple, RenderFields;
    RenderFour(INCIDENT, t.run, t.harness, t.attempt, t.shard);
  }

  lemma TelemetryText(t: Tuple)
    requires IsTuple(t)
    ensures TelemetryFor(t) ==
      Some("telemetry/run-" + t.run + "/" + t.harness + "-attempt-" + t.attempt + "-shard-" + t.shard + ".json")
  {
    hide IsTuple, RenderFields;
    RenderFour(TELEMETRY, t.run, t.harness, t.attempt, t.shard);
  }

  lemma UnitText(h: string, name: string)
    requires IsHarness(h) && IsUnitName(name)
    ensures CorpusUnitFor(h, name) == Some("corpus/" + h + "/" + name)
  {
  }

  /** Nothing else is printed: the generators refuse the rest. */
  lemma RefusedTuples(t: Tuple, h: string, name: string)
    ensures !IsTuple(t) ==> BranchFor(t).None? && IncidentFor(t).None? && TelemetryFor(t).None?
    ensures !(IsHarness(h) && IsUnitName(name)) ==> CorpusUnitFor(h, name).None?
  {
  }

  // ----- legacy names -----

  const OLD_HARNESS := "cmp_ecdsa_online"

  function LegacyText(run: string, attempt: string, shard: string): (s: string)
  {
    "ingest/run-" + run + "/attempt-" + attempt + "/shard-" + shard
  }

  lemma OldHarness()
    ensures IsHarness(OLD_HARNESS)
  {
    assert HARNESSES[0] == OLD_HARNESS;
  }

  lemma LegacyIsRendered(run: string, attempt: string, shard: string)
    ensures LegacyText(run, attempt, shard) == Render(LEGACY, [run, attempt, shard])
  {
    hide RenderFields;
    RenderThree(LEGACY, run, attempt, shard);
  }

  lemma LegacyIsClean(run: string, attempt: string, shard: string)
    requires IsUint(run) && IsUint(attempt) && IsUint(shard)
    ensures CleanRef(LegacyText(run, attempt, shard))
  {
    assert Tame("ingest/run-") && Tame("/attempt-") && Tame("/shard-");
    assert Tame(run) && Tame(attempt) && Tame(shard);
    assert Tame(LegacyText(run, attempt, shard));
  }

  lemma LegacyIsDelimited(run: string, attempt: string, shard: string)
    requires IsUint(run) && IsUint(attempt) && IsUint(shard)
    ensures Delimited(LEGACY.fields) && Fits(LEGACY.fields, [run, attempt, shard])
  {
  }

  /** Every legacy name with canonical numbers is accepted, for the one harness
      of its time. */
  lemma LegacyRoundTrip(run: string, attempt: string, shard: string)
    requires IsUint(run) && IsUint(attempt) && IsUint(shard)
    ensures ParseBranchLegacy(LegacyText(run, attempt, shard)) == Some(Tuple(run, attempt, OLD_HARNESS, shard))
    ensures ParseBranch(LegacyText(run, attempt, shard)).None?
  {
    hide IsUint, CleanRef, Match, Render, IsHarness, ParseBranch, LegacyText;
    var s := LegacyText(run, attempt, shard);
    LegacyIsRendered(run, attempt, shard);
    LegacyIsClean(run, attempt, shard);
    LegacyIsDelimited(run, attempt, shard);
    OldHarness();
    MatchRenderPattern(LEGACY, [run, attempt, shard]);
    BranchGrammarsDisjoint(s);
  }

  /** And no other name is. */
  lemma LegacyAcceptedIff(s: string, t: Tuple)
    ensures ParseBranchLegacy(s) == Some(t) <==>
      IsUint(t.run) && IsUint(t.attempt) && IsUint(t.shard) && t.harness == OLD_HARNESS
      && s == LegacyText(t.run, t.attempt, t.shard)
  {
    hide IsUint, ParseBranchLegacy, Render, LegacyText, IsHarness;
    if ParseBranchLegacy(s) == Some(t) {
      LegacyParseInverse(s);
      LegacyIsRendered(t.run, t.attempt, t.shard);
    }
    if IsUint(t.run) && IsUint(t.attempt) && IsUint(t.shard) { LegacyRoundTrip(t.run, t.attempt, t.shard); }
  }
}
