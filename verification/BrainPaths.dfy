/** The single authority on the names used in the private pool:
    scripts/brain_paths.sh.  A name pattern is a list of literals and captures;
    the generator renders captures into it and the parser matches a string
    against it.  The two are proved inverse once, for every pattern whose
    captures are delimited, and then specialised to the four grammars. */
module BrainPaths {
  import opened Sequences

  const HARNESSES := ["cmp_ecdsa_online", "cmp_ecdsa_online_r4_tn", "cmp_ecdsa_online_dual"]

  predicate IsDigit(c: char) { '0' <= c <= '9' }

  predicate IsWordChar(c: char) { 'a' <= c <= 'z' || IsDigit(c) || c == '_' }

  predicate IsHexChar(c: char) { 'a' <= c <= 'f' || IsDigit(c) }

  /** `0`, or digits that do not start with zero. */
  predicate IsUint(s: string)
  {
    s != "" && (forall i :: 0 <= i < |s| ==> IsDigit(s[i])) && (s[0] == '0' ==> |s| == 1)
  }

  predicate IsHarness(s: string) { s in HARNESSES }

  predicate IsUnitName(s: string)
  {
    |s| == 40 && forall i :: 0 <= i < |s| ==> IsHexChar(s[i])
  }

  /** Who published: the tuple every branch, incident and telemetry name spells. */
  datatype Tuple = Tuple(run: string, attempt: string, harness: string, shard: string)

  predicate IsTuple(t: Tuple)
  {
    IsUint(t.run) && IsUint(t.attempt) && IsUint(t.shard) && IsHarness(t.harness)
  }

  // ----- patterns -----

  datatype Class = Digits | Word

  /** A capture and the literal text that follows it. */
  datatype Field = Field(class_: Class, sep: string)

  datatype Pattern = Pattern(head: string, fields: seq<Field>)

  predicate InClass(k: Class, c: char)
  {
    if k == Digits then IsDigit(c) else IsWordChar(c)
  }

  predicate IsCapture(k: Class, s: string)
  {
    s != "" && forall i :: 0 <= i < |s| ==> InClass(k, s[i])
  }

  /** Length of the longest prefix whose characters are all in the class. */
  function Span(k: Class, s: string): (n: nat)
    ensures n <= |s|
    ensures forall i :: 0 <= i < n ==> InClass(k, s[i])
    ensures n < |s| ==> !InClass(k, s[n])
  {
    if s == "" || !InClass(k, s[0]) then 0 else 1 + Span(k, s[1..])
  }

  /** The capture of one field, and what follows its literal text. */
  function Cut(f: Field, s: string): (r: Option<(string, string)>)
    ensures r.Some? ==> IsCapture(f.class_, r.value.0) && s == r.value.0 + f.sep + r.value.1
  {
    var n := Span(f.class_, s);
    if n == 0 || !(f.sep <= s[n..]) then None
    else
      assert s[n..] == f.sep + s[n + |f.sep|..];
      Some((s[..n], s[n + |f.sep|..]))
  }

  function MatchFields(fs: seq<Field>, s: string): (r: Option<seq<string>>)
    decreases |fs|
  {
    if fs == [] then if s == "" then Some([]) else None
    else match Cut(fs[0], s)
      case None => None
      case Some((cap, tail)) =>
        match MatchFields(fs[1..], tail)
        case None => None
        case Some(rest) => Some([cap] + rest)
  }

  /** Anchored match of the whole string; the captures in order. */
  function Match(p: Pattern, s: string): (r: Option<seq<string>>)
  {
    if p.head <= s then MatchFields(p.fields, s[|p.head|..]) else None
  }

  predicate Fits(fs: seq<Field>, caps: seq<string>)
  {
    |caps| == |fs| && forall i :: 0 <= i < |fs| ==> IsCapture(fs[i].class_, caps[i])
  }

  function RenderFields(fs: seq<Field>, caps: seq<string>): (s: string)
    requires |caps| == |fs|
  {
    if fs == [] then "" else caps[0] + fs[0].sep + RenderFields(fs[1..], caps[1..])
  }

  function Render(p: Pattern, caps: seq<string>): (s: string)
    requires |caps| == |p.fields|
  {
    p.head + RenderFields(p.fields, caps)
  }

  /** Every capture is followed by a literal that cannot continue it (only the
      last one may end the string), so a match cannot be cut in two ways. */
  predicate Delimited(fs: seq<Field>)
  {
    forall i :: 0 <= i < |fs| ==>
      if fs[i].sep == "" then i == |fs| - 1 else !InClass(fs[i].class_, fs[i].sep[0])
  }

  lemma {:induction false} SpanOfCapture(k: Class, s: string, rest: string)
    requires forall i :: 0 <= i < |s| ==> InClass(k, s[i])
    requires rest == "" || !InClass(k, rest[0])
    ensures Span(k, s + rest) == |s|
  {
    if s == "" {
      assert s + rest == rest;
    } else {
      assert (s + rest)[1..] == s[1..] + rest;
      SpanOfCapture(k, s[1..], rest);
    }
  }

  lemma CutCapture(f: Field, cap: string, tail: string)
    requires IsCapture(f.class_, cap)
    requires if f.sep == "" then tail == "" else !InClass(f.class_, f.sep[0])
    ensures Cut(f, cap + f.sep + tail) == Some((cap, tail))
  {
    hide InClass, IsCapture;
    CaptureClass(f.class_, cap);
    var s := cap + f.sep + tail;
    assert s == cap + (f.sep + tail);
    SpanOfCapture(f.class_, cap, f.sep + tail);
    assert s[..|cap|] == cap && s[|cap|..] == f.sep + tail && s[|cap| + |f.sep|..] == tail;
  }

  lemma CaptureClass(k: Class, s: string)
    requires IsCapture(k, s)
    ensures s != "" && forall i :: 0 <= i < |s| ==> InClass(k, s[i])
  {
  }

  /** The parser undoes the generator. */
  lemma {:induction false} MatchRender(fs: seq<Field>, caps: seq<string>)
    requires Delimited(fs) && Fits(fs, caps)
    ensures MatchFields(fs, RenderFields(fs, caps)) == Some(caps)
  {
    hide Cut, InClass, IsCapture;
    if fs != [] {
      MatchRender(fs[1..], caps[1..]);
      assert |fs| == 1 ==> RenderFields(fs[1..], caps[1..]) == "";
      CutCapture(fs[0], caps[0], RenderFields(fs[1..], caps[1..]));
      assert [caps[0]] + caps[1..] == caps;
    }
  }

  /** The generator undoes the parser: an accepted string is the one string
      that its captures render to. */
  lemma {:induction false} RenderMatch(fs: seq<Field>, s: string)
    requires MatchFields(fs, s).Some?
    ensures Fits(fs, MatchFields(fs, s).value)
    ensures RenderFields(fs, MatchFields(fs, s).value) == s
    decreases |fs|
  {
    hide Cut, InClass, IsCapture;
    if fs != [] {
      var (cap, tail) := Cut(fs[0], s).value;
      RenderMatch(fs[1..], tail);
      RenderCapture(fs, cap, tail, MatchFields(fs[1..], tail).value);
    }
  }

  lemma RenderCapture(fs: seq<Field>, cap: string, tail: string, rest: seq<string>)
    requires fs != [] && IsCapture(fs[0].class_, cap)
    requires Fits(fs[1..], rest) && RenderFields(fs[1..], rest) == tail
    ensures Fits(fs, [cap] + rest) && RenderFields(fs, [cap] + rest) == cap + fs[0].sep + tail
  {
    hide IsCapture;
    var caps := [cap] + rest;
    assert caps[1..] == rest;
    forall i | 0 < i < |fs| ensures IsCapture(fs[i].class_, caps[i]) {
      assert fs[i] == fs[1..][i - 1] && caps[i] == rest[i - 1];
    }
  }

  // ----- the four grammars -----

  const BRANCH := Pattern("ingest/run-",
    [Field(Digits, "/attempt-"), Field(Digits, "/"), Field(Word, "/shard-"), Field(Digits, "")])
  const LEGACY := Pattern("ingest/run-",
    [Field(Digits, "/attempt-"), Field(Digits, "/shard-"), Field(Digits, "")])
  const INCIDENT := Pattern("incidents/run-",
    [Field(Digits, "/"), Field(Word, "-attempt-"), Field(Digits, "-shard-"), Field(Digits, ".gpg")])
  const TELEMETRY := Pattern("telemetry/run-",
    [Field(Digits, "/"), Field(Word, "-attempt-"), Field(Digits, "-shard-"), Field(Digits, ".json")])

  function BranchCaptures(t: Tuple): (c: seq<string>)
  {
    [t.run, t.attempt, t.harness, t.shard]
  }

  function EvidenceCaptures(t: Tuple): (c: seq<string>)
  {
    [t.run, t.harness, t.attempt, t.shard]
  }

  lemma HarnessIsWord(h: string)
    requires IsHarness(h)
    ensures IsCapture(Word, h)
  {
  }

  function BranchFor(t: Tuple): (r: Option<string>)
  {
    if IsTuple(t) then Some(Render(BRANCH, BranchCaptures(t))) else None
  }

  /** The branch parsers refuse a newline, a space or `..` before matching. */
  predicate CleanRef(s: string)
  {
    && (forall i :: 0 <= i < |s| ==> s[i] != '\n' && s[i] != ' ')
    && (forall i :: 0 <= i < |s| - 1 ==> !(s[i] == '.' && s[i + 1] == '.'))
  }

  function Checked(t: Tuple): (r: Option<Tuple>)
  {
    if IsTuple(t) then Some(t) else None
  }

  function ParseBranch(s: string): (r: Option<Tuple>)
  {
    if !CleanRef(s) then None
    else match Match(BRANCH, s)
      case Some(c) => if |c| == 4 then Checked(Tuple(c[0], c[1], c[2], c[3])) else None
      case None => None
  }

  function ParseBranchLegacy(s: string): (r: Option<Tuple>)
  {
    if !CleanRef(s) then None
    else match Match(LEGACY, s)
      case Some(c) => if |c| == 3 then Checked(Tuple(c[0], c[1], "cmp_ecdsa_online", c[2])) else None
      case None => None
  }

  function EvidenceFor(p: Pattern, t: Tuple): (r: Option<string>)
    requires |p.fields| == 4
  {
    if IsTuple(t) then Some(Render(p, EvidenceCaptures(t))) else None
  }

  function ParseEvidence(p: Pattern, s: string): (r: Option<Tuple>)
  {
    match Match(p, s)
    case Some(c) => if |c| == 4 then Checked(Tuple(c[0], c[2], c[1], c[3])) else None
    case None => None
  }

  function IncidentFor(t: Tuple): (r: Option<string>) { EvidenceFor(INCIDENT, t) }

  function ParseIncident(s: string): (r: Option<Tuple>) { ParseEvidence(INCIDENT, s) }

  function TelemetryFor(t: Tuple): (r: Option<string>) { EvidenceFor(TELEMETRY, t) }

  function ParseTelemetry(s: string): (r: Option<Tuple>) { ParseEvidence(TELEMETRY, s) }

  function CorpusDir(harness: string): (r: string) { "corpus/" + harness + "/" }

  function CorpusUnitFor(harness: string, name: string): (r: Option<string>)
  {
    if IsHarness(harness) && IsUnitName(name) then Some(CorpusDir(harness) + name) else None
  }

  // ----- inverse laws -----

  lemma BranchDelimited()
    ensures Delimited(BRANCH.fields)
  {
  }

  lemma EvidenceDelimited()
    ensures Delimited(INCIDENT.fields) && Delimited(TELEMETRY.fields)
  {
  }

  lemma MatchRenderPattern(p: Pattern, caps: seq<string>)
    requires Delimited(p.fields) && Fits(p.fields, caps)
    ensures Match(p, Render(p, caps)) == Some(caps)
  {
    hide MatchFields, RenderFields, IsCapture, Delimited;
    MatchRender(p.fields, caps);
    assert Render(p, caps)[|p.head|..] == RenderFields(p.fields, caps);
  }

  lemma RenderMatchPattern(p: Pattern, s: string)
    requires Match(p, s).Some?
    ensures Fits(p.fields, Match(p, s).value)
    ensures Render(p, Match(p, s).value) == s
  {
    hide MatchFields, RenderFields, Fits;
    RenderMatch(p.fields, s[|p.head|..]);
    assert s == p.head + s[|p.head|..];
  }

  /** What git forbids in a reference never occurs in text made of captures and
      of separators that hold none of it. */
  predicate Tame(s: string)
  {
    forall i :: 0 <= i < |s| ==> s[i] != '\n' && s[i] != ' ' && s[i] != '.'
  }

  lemma {:induction false} RenderTame(fs: seq<Field>, caps: seq<string>)
    requires Fits(fs, caps) && forall i :: 0 <= i < |fs| ==> Tame(fs[i].sep)
    ensures Tame(RenderFields(fs, caps))
  {
    if fs != [] {
      RenderTame(fs[1..], caps[1..]);
      assert IsCapture(fs[0].class_, caps[0]);
      assert Tame(fs[0].sep);
    }
  }

  lemma TupleFits(t: Tuple)
    requires IsTuple(t)
    ensures Fits(BRANCH.fields, BranchCaptures(t))
    ensures Fits(INCIDENT.fields, EvidenceCaptures(t)) && Fits(TELEMETRY.fields, EvidenceCaptures(t))
    ensures Fits(LEGACY.fields, [t.run, t.attempt, t.shard])
  {
    HarnessIsWord(t.harness);
    assert IsCapture(Digits, t.run) && IsCapture(Digits, t.attempt) && IsCapture(Digits, t.shard);
  }

  lemma BranchIsClean(t: Tuple)
    requires IsTuple(t)
    ensures CleanRef(BranchFor(t).value)
  {
    TupleFits(t);
    RenderTame(BRANCH.fields, BranchCaptures(t));
    assert Tame(BRANCH.head);
    var tail := RenderFields(BRANCH.fields, BranchCaptures(t));
    TameAppend(BRANCH.head, tail);
  }

  lemma TameAppend(a: string, b: string)
    requires Tame(a) && Tame(b)
    ensures Tame(a + b)
  {
  }

  /** Parsing a generated branch gives its tuple back, and the generated name
      passes every guard of the parser. */
  lemma BranchRoundTrip(t: Tuple)
    requires IsTuple(t)
    ensures ParseBranch(BranchFor(t).value) == Some(t)
  {
    TupleFits(t);
    BranchDelimited();
    MatchRenderPattern(BRANCH, BranchCaptures(t));
    BranchIsClean(t);
  }

  /** Each accepted branch is the generated name of the tuple it parses to, so
      no two branches name one tuple. */
  lemma BranchParseInverse(s: string)
    requires ParseBranch(s).Some?
    ensures IsTuple(ParseBranch(s).value) && BranchFor(ParseBranch(s).value) == Some(s)
  {
    hide MatchFields, RenderFields, Fits, CleanRef, IsTuple;
    RenderMatchPattern(BRANCH, s);
    var c := Match(BRANCH, s).value;
    assert c == [c[0], c[1], c[2], c[3]];
  }

  lemma EvidenceRoundTrip(p: Pattern, t: Tuple)
    requires p == INCIDENT || p == TELEMETRY
    requires IsTuple(t)
    ensures ParseEvidence(p, EvidenceFor(p, t).value) == Some(t)
  {
    TupleFits(t);
    EvidenceDelimited();
    MatchRenderPattern(p, EvidenceCaptures(t));
  }

  lemma EvidenceParseInverse(p: Pattern, s: string)
    requires p == INCIDENT || p == TELEMETRY
    requires ParseEvidence(p, s).Some?
    ensures IsTuple(ParseEvidence(p, s).value) && EvidenceFor(p, ParseEvidence(p, s).value) == Some(s)
  {
    hide MatchFields, RenderFields, Fits, IsTuple;
    RenderMatchPattern(p, s);
    var c := Match(p, s).value;
    assert c == [c[0], c[1], c[2], c[3]];
  }

  // ----- no string belongs to two grammars -----

  lemma LegacyParseInverse(s: string)
    requires ParseBranchLegacy(s).Some?
    ensures var t := ParseBranchLegacy(s).value;
      IsTuple(t) && t.harness == "cmp_ecdsa_online" && s == Render(LEGACY, [t.run, t.attempt, t.shard])
  {
    hide MatchFields, RenderFields, Fits, CleanRef, IsTuple;
    RenderMatchPattern(LEGACY, s);
    var c := Match(LEGACY, s).value;
    assert c == [c[0], c[1], c[2]];
  }

  /** Corpus, incident and telemetry names are pairwise different. */
  lemma PathGrammarsDisjoint(h: string, name: string, t: Tuple, u: Tuple)
    requires IsHarness(h) && IsUnitName(name) && IsTuple(t) && IsTuple(u)
    ensures CorpusUnitFor(h, name).value != IncidentFor(t).value
    ensures CorpusUnitFor(h, name).value != TelemetryFor(t).value
    ensures IncidentFor(t).value != TelemetryFor(u).value
    ensures "corpus/" <= CorpusUnitFor(h, name).value
    ensures !("corpus/" <= IncidentFor(t).value) && !("corpus/" <= TelemetryFor(t).value)
  {
    assert CorpusUnitFor(h, name).value[0] == 'c';
    assert IncidentFor(t).value[0] == 'i';
    assert TelemetryFor(u).value[0] == 't' && TelemetryFor(t).value[0] == 't';
  }

  lemma WordIsNotShard(s: string)
    requires "shard-" <= s
    ensures Cut(Field(Word, "/shard-"), s).None?
  {
    assert forall i :: 0 <= i < 6 ==> s[i] == "shard-"[i];
    SpanOfCapture(Word, s[..5], s[5..]);
    assert s == s[..5] + s[5..];
    assert s[5..][0] == '-' && "/shard-"[0] == '/';
  }

  lemma SlashShard(s: string)
    requires Cut(Field(Digits, "/"), s).Some? && Cut(Field(Digits, "/shard-"), s).Some?
    ensures "shard-" <= Cut(Field(Digits, "/"), s).value.1
  {
    hide InClass;
    var n := Span(Digits, s);
    assert s[n + 1..] == s[n..][1..];
    assert "shard-" == "/shard-"[1..] <= s[n..][1..];
  }

  lemma AfterAttempt(b: seq<Field>, l: seq<Field>, s: string)
    requires |b| > 1 && b[0] == Field(Digits, "/") && b[1] == Field(Word, "/shard-")
    requires |l| > 0 && l[0] == Field(Digits, "/shard-")
    ensures MatchFields(b, s).None? || MatchFields(l, s).None?
  {
    hide Cut;
    if Cut(b[0], s).Some? && Cut(l[0], s).Some? {
      SlashShard(s);
      WordIsNotShard(Cut(b[0], s).value.1);
      assert MatchFields(b[1..], Cut(b[0], s).value.1).None?;
    }
  }

  /** The canonical and the legacy parser never accept the same string: after
      the attempt number one needs a word and a slash, the other `shard-`. */
  lemma BranchGrammarsDisjoint(s: string)
    ensures ParseBranch(s).None? || ParseBranchLegacy(s).None?
  {
    hide Cut, CleanRef, Checked;
    var b, l := BRANCH.fields, LEGACY.fields;
    var rest := if BRANCH.head <= s then s[|BRANCH.head|..] else "";
    if Cut(b[0], rest).Some? { AfterAttempt(b[1..], l[1..], Cut(b[0], rest).value.1); }
  }

  // ----- path shape, as the scripts see it -----

  predicate SlashFree(s: string)
  {
    forall i :: 0 <= i < |s| ==> s[i] != '/'
  }

  /** The text after the last slash, or the whole string. */
  function Basename(s: string): (r: string)
  {
    if SlashFree(s) then s else Basename(s[1..])
  }

  lemma {:induction false} BasenameAppend(dir: string, name: string)
    requires SlashFree(name)
    requires dir != "" ==> dir[|dir| - 1] == '/'
    ensures Basename(dir + name) == name
  {
    if dir == "" {
      assert dir + name == name;
    } else {
      assert (dir + name)[|dir| - 1] == '/';
      assert (dir + name)[1..] == dir[1..] + name;
      BasenameAppend(dir[1..], name);
    }
  }

  /** `first/second/third`: the shape of every path the scripts generate. */
  ghost predicate ThreeLevels(s: string)
  {
    exists i, j :: SlashesAt(s, i, j)
  }

  ghost predicate SlashesAt(s: string, i: int, j: int)
  {
    0 <= i < j < |s| && s[i] == '/' && s[j] == '/' && forall k :: 0 <= k < |s| && k != i && k != j ==> s[k] != '/'
  }

  /** One tree cannot hold both a file and something below it; two paths of
      this shape never ask for that. */
  lemma ThreeLevelsNeverNest(p: string, q: string)
    requires ThreeLevels(p) && ThreeLevels(q)
    ensures !(p + "/" <= q)
  {
    var i, j :| SlashesAt(p, i, j);
    var k, l :| SlashesAt(q, k, l);
    var d := p + "/";
    assert d[i] == '/' && d[j] == '/' && d[|p|] == '/';
  }

  lemma UnitPathShape(h: string, name: string)
    requires IsHarness(h) && IsUnitName(name)
    ensures ThreeLevels(CorpusUnitFor(h, name).value)
    ensures Basename(CorpusUnitFor(h, name).value) == name
  {
    HarnessIsWord(h);
    var p := CorpusUnitFor(h, name).value;
    assert p == CorpusDir(h) + name;
    assert SlashesAt(p, 6, 7 + |h|);
    BasenameAppend(CorpusDir(h), name);
  }

  lemma {:induction false} RenderSlashFree(fs: seq<Field>, caps: seq<string>)
    requires Fits(fs, caps) && forall i :: 0 <= i < |fs| ==> SlashFree(fs[i].sep)
    ensures SlashFree(RenderFields(fs, caps))
  {
    if fs != [] {
      RenderSlashFree(fs[1..], caps[1..]);
      assert IsCapture(fs[0].class_, caps[0]);
      assert SlashFree(fs[0].sep);
    }
  }

  lemma EvidencePathShape(p: Pattern, t: Tuple)
    requires p == INCIDENT || p == TELEMETRY
    requires IsTuple(t)
    ensures ThreeLevels(EvidenceFor(p, t).value)
  {
    hide InClass, ThreeLevels;
    TupleFits(t);
    var caps, fs := EvidenceCaptures(t), p.fields;
    RenderSlashFree(fs[1..], caps[1..]);
    var tail := RenderFields(fs[1..], caps[1..]);
    assert EvidenceFor(p, t).value == p.head + (t.run + "/" + tail);
    TwoSlashes(p.head, t.run, tail);
  }

  lemma TwoSlashes(head: string, run: string, tail: string)
    requires head == INCIDENT.head || head == TELEMETRY.head
    requires IsUint(run) && SlashFree(tail)
    ensures ThreeLevels(head + (run + "/" + tail))
  {
    var s := head + (run + "/" + tail);
    assert |head| == 14 && head[9] == '/';
    assert SlashesAt(s, 9, 14 + |run|);
  }
}
