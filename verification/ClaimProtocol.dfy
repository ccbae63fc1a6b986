/** The telemetry jobs as a multi-process state machine
    (harness/cmp_ecdsa_online/src/telemetry_v2.cpp): processes race for job
    indices by exclusive create, each then counts its cases and republishes its
    own document after every successful record. */
module ClaimProtocol {
  import opened Sequences
  import opened Telemetry

  const MAX_JOB_DOCUMENTS := 100000

  type Pid = nat

  /** `Stopped` covers a failed call (the callers exit) and a crash. */
  datatype Phase = Seeking(next: nat) | Owner(index: nat) | Stopped(held: Option<nat>)

  datatype Process = Process(phase: Phase, counters: Counters)

  datatype Document = Document(jobIndex: nat, counters: Counters, writer: Pid)

  datatype State = State(claims: map<nat, Pid>, processes: map<Pid, Process>, documents: map<nat, Document>)

  datatype Step =
    | Spawn(p: Pid)
    | TryClaim(p: Pid, writeOk: bool)
    | RecordEvent(p: Pid, ev: Event, renamed: bool, synced: bool)
    | PublishAtExit(p: Pid, renamed: bool)
    | Crash(p: Pid)

  function Held(ph: Phase): (r: Option<nat>)
  {
    match ph
    case Seeking(_) => None
    case Owner(i) => Some(i)
    case Stopped(h) => h
  }

  function Replace(s: State, p: Pid, phase: Phase, c: Counters): (s': State)
  {
    s.(processes := s.processes[p := Process(phase, c)])
  }

  /** Write the whole document to a private name and rename it into place; a
      failure before the rename leaves the old document. */
  function Publish(s: State, p: Pid, index: nat, c: Counters, renamed: bool): (s': State)
  {
    if renamed then s.(documents := s.documents[index := Document(index, c, p)]) else s
  }

  /** The next state, or None when the step cannot be taken. */
  function Next(s: State, step: Step): (r: Option<State>)
  {
    match step
    case Spawn(p) =>
      if p in s.processes then None else Some(Replace(s, p, Seeking(0), Fresh()))
    case TryClaim(p, writeOk) =>
      if p !in s.processes || !s.processes[p].phase.Seeking? then None
      else
        var i, c := s.processes[p].phase.next, s.processes[p].counters;
        if i >= MAX_JOB_DOCUMENTS then Some(Replace(s, p, Stopped(None), c))
        else if i in s.claims then Some(Replace(s, p, Seeking(i + 1), c))
        else
          var s' := s.(claims := s.claims[i := p]);
          Some(Replace(s', p, if writeOk then Owner(i) else Stopped(Some(i)), c))
    case RecordEvent(p, ev, renamed, synced) =>
      if p !in s.processes || !s.processes[p].phase.Owner? then None
      else
        var i := s.processes[p].phase.index;
        var (c, recorded) := Record(s.processes[p].counters, ev);
        if !recorded then Some(Replace(s, p, Stopped(Some(i)), c))
        else
          var s' := Publish(s, p, i, c, renamed);
          Some(Replace(s', p, if renamed && synced then Owner(i) else Stopped(Some(i)), c))
    case PublishAtExit(p, renamed) =>
      if p !in s.processes || !s.processes[p].phase.Owner? then None
      else
        var i, c := s.processes[p].phase.index, s.processes[p].counters;
        Some(Replace(Publish(s, p, i, c, renamed), p, Stopped(Some(i)), c))
    case Crash(p) =>
      if p !in s.processes then None
      else Some(Replace(s, p, Stopped(Held(s.processes[p].phase)), s.processes[p].counters))
  }

  function Empty(): (s: State) { State(map[], map[], map[]) }

  ghost predicate IsRun(states: seq<State>, steps: seq<Step>)
  {
    && |states| == |steps| + 1 && states[0] == Empty()
    && forall i :: 0 <= i < |steps| ==> Next(states[i], steps[i]) == Some(states[i + 1])
  }

  // ----- the invariant -----

  /** The claimed indices are an initial segment of the numbers. */
  ghost predicate Contiguous(claims: map<nat, Pid>)
  {
    forall i: nat, j :: i <= j && j in claims ==> i in claims
  }

  ghost predicate ProcessOk(s: State, p: Pid, pr: Process)
  {
    && (pr.phase.Seeking? ==> forall i: nat :: i < pr.phase.next ==> i in s.claims)
    && (Held(pr.phase).Some? ==> Held(pr.phase).value in s.claims && s.claims[Held(pr.phase).value] == p)
    && (!pr.phase.Stopped? ==> Vocabulary(pr.counters) && Closes(pr.counters))
  }

  /** A claim is remembered by the process that made it. */
  ghost predicate ClaimOk(s: State, i: nat)
    requires i in s.claims
  {
    i < MAX_JOB_DOCUMENTS && s.claims[i] in s.processes && Held(s.processes[s.claims[i]].phase) == Some(i)
  }

  ghost predicate DocumentOk(s: State, i: nat)
    requires i in s.documents
  {
    var d := s.documents[i];
    && d.jobIndex == i && i in s.claims && d.writer == s.claims[i] && Vocabulary(d.counters) && Closes(d.counters)
    && d.writer in s.processes && d.counters.execs <= s.processes[d.writer].counters.execs
  }

  ghost predicate Inv(s: State)
  {
    && Contiguous(s.claims)
    && (forall p :: p in s.processes ==> ProcessOk(s, p, s.processes[p]))
    && (forall i :: i in s.claims ==> ClaimOk(s, i))
    && (forall i :: i in s.documents ==> DocumentOk(s, i))
  }

  /** Changing one process without touching claims or its held index. */
  lemma ReplaceKeepsInv(s: State, p: Pid, phase: Phase, c: Counters)
    requires Inv(s) && ProcessOk(s, p, Process(phase, c))
    requires if p in s.processes then Held(phase) == Held(s.processes[p].phase) else Held(phase) == None
    requires p in s.processes ==> s.processes[p].counters.execs <= c.execs
    ensures Inv(Replace(s, p, phase, c))
  {
    hide Closes, Vocabulary, Contiguous;
    var s' := Replace(s, p, phase, c);
    forall i | i in s'.claims ensures ClaimOk(s', i) { assert ClaimOk(s, i); }
    forall q | q in s'.processes ensures ProcessOk(s', q, s'.processes[q]) {
      if q != p { assert ProcessOk(s, q, s.processes[q]); }
    }
    forall i | i in s'.documents ensures DocumentOk(s', i) { assert DocumentOk(s, i); }
  }

  lemma PublishKeepsInv(s: State, p: Pid, index: nat, c: Counters, renamed: bool)
    requires Inv(s) && index in s.claims && s.claims[index] == p && Vocabulary(c) && Closes(c)
    requires p in s.processes && c.execs <= s.processes[p].counters.execs
    ensures Inv(Publish(s, p, index, c, renamed))
  {
    hide Closes, Vocabulary, Contiguous;
    var s' := Publish(s, p, index, c, renamed);
    forall i | i in s'.claims ensures ClaimOk(s', i) { assert ClaimOk(s, i); }
    forall q | q in s'.processes ensures ProcessOk(s', q, s'.processes[q]) { assert ProcessOk(s, q, s.processes[q]); }
    forall i | i in s'.documents ensures DocumentOk(s', i) { if i in s.documents { assert DocumentOk(s, i); } }
  }

  /** The index tried next is the first one free. */
  lemma ClaimContiguous(s: State, p: Pid, i: nat)
    requires Contiguous(s.claims) && i !in s.claims
    requires p in s.processes && s.processes[p].phase == Seeking(i) && ProcessOk(s, p, s.processes[p])
    ensures Contiguous(s.claims[i := p])
  {
    hide Closes, Vocabulary;
  }

  /** The state after process `p` has taken index `i`. */
  function Claimed(s: State, p: Pid, i: nat, phase: Phase, c: Counters): (s': State)
  {
    Replace(s.(claims := s.claims[i := p]), p, phase, c)
  }

  lemma ClaimKeepsClaims(s: State, p: Pid, i: nat, phase: Phase, c: Counters, j: nat)
    requires p in s.processes && s.processes[p].phase == Seeking(i) && i < MAX_JOB_DOCUMENTS
    requires phase == Owner(i) || phase == Stopped(Some(i))
    requires j == i || (j in s.claims && ClaimOk(s, j))
    ensures ClaimOk(Claimed(s, p, i, phase, c), j)
  {
  }

  lemma ClaimKeepsDocuments(s: State, p: Pid, i: nat, phase: Phase, c: Counters, j: nat)
    requires j in s.documents && DocumentOk(s, j)
    requires p in s.processes && s.processes[p].counters == c && i !in s.claims
    ensures DocumentOk(Claimed(s, p, i, phase, c), j)
  {
    hide Closes, Vocabulary;
  }

  lemma ClaimKeepsProcesses(s: State, p: Pid, i: nat, phase: Phase, c: Counters, q: Pid)
    requires q in s.processes && ProcessOk(s, q, s.processes[q])
    requires p in s.processes && s.processes[p].phase == Seeking(i) && s.processes[p].counters == c
    requires i !in s.claims && (phase == Owner(i) || phase == Stopped(Some(i)))
    ensures ProcessOk(Claimed(s, p, i, phase, c), q, Claimed(s, p, i, phase, c).processes[q])
  {
    hide Closes, Vocabulary;
  }

  lemma ClaimKeepsInv(s: State, p: Pid, i: nat, phase: Phase, c: Counters)
    requires Inv(s) && p in s.processes && s.processes[p].phase == Seeking(i) && s.processes[p].counters == c
    requires i < MAX_JOB_DOCUMENTS && i !in s.claims && (phase == Owner(i) || phase == Stopped(Some(i)))
    ensures Inv(Claimed(s, p, i, phase, c))
  {
    hide Contiguous, DocumentOk, ProcessOk, ClaimOk;
    var s' := Claimed(s, p, i, phase, c);
    ClaimContiguous(s, p, i);
    forall j | j in s'.claims ensures ClaimOk(s', j) { ClaimKeepsClaims(s, p, i, phase, c, j); }
    forall q | q in s'.processes ensures ProcessOk(s', q, s'.processes[q]) {
      ClaimKeepsProcesses(s, p, i, phase, c, q);
    }
    forall j | j in s'.documents ensures DocumentOk(s', j) { ClaimKeepsDocuments(s, p, i, phase, c, j); }
  }

  lemma StepKeepsInv(s: State, step: Step)
    requires Inv(s) && Next(s, step).Some?
    ensures Inv(Next(s, step).value)
  {
    hide Closes, Vocabulary, Contiguous, ClaimOk, DocumentOk, Record, Fresh;
    FreshCloses();
    var p := step.p;
    if p in s.processes { assert ProcessOk(s, p, s.processes[p]); }
    match step
    case Spawn(_) =>
      ReplaceKeepsInv(s, p, Seeking(0), Fresh());
    case TryClaim(_, writeOk) =>
      var i, c := s.processes[p].phase.next, s.processes[p].counters;
      if i >= MAX_JOB_DOCUMENTS {
        ReplaceKeepsInv(s, p, Stopped(None), c);
      } else if i in s.claims {
        ReplaceKeepsInv(s, p, Seeking(i + 1), c);
      } else {
        ClaimKeepsInv(s, p, i, if writeOk then Owner(i) else Stopped(Some(i)), c);
      }
    case RecordEvent(_, ev, renamed, synced) =>
      var i := s.processes[p].phase.index;
      var (c, recorded) := Record(s.processes[p].counters, ev);
      RecordClosesIff(s.processes[p].counters, ev);
      RecordAdvances(s.processes[p].counters, ev);
      if recorded {
        var phase := if renamed && synced then Owner(i) else Stopped(Some(i));
        ReplaceKeepsInv(s, p, phase, c);
        PublishKeepsInv(Replace(s, p, phase, c), p, i, c, renamed);
      } else {
        ReplaceKeepsInv(s, p, Stopped(Some(i)), c);
      }
    case PublishAtExit(_, renamed) =>
      var i, c := s.processes[p].phase.index, s.processes[p].counters;
      ReplaceKeepsInv(s, p, Stopped(Some(i)), c);
      PublishKeepsInv(Replace(s, p, Stopped(Some(i)), c), p, i, c, renamed);
    case Crash(_) =>
      ReplaceKeepsInv(s, p, Stopped(Held(s.processes[p].phase)), s.processes[p].counters);
  }

  lemma RecordAdvances(c: Counters, ev: Event)
    ensures Record(c, ev).1 ==> !RefusedVerdict(c, ev) && Record(c, ev).0.execs == c.execs + 1
    ensures c.execs <= Record(c, ev).0.execs
  {
  }

  lemma {:induction false} RunKeepsInv(states: seq<State>, steps: seq<Step>, i: nat)
    requires IsRun(states, steps) && i <= |steps|
    ensures Inv(states[i])
  {
    hide Next;
    if i > 0 {
      RunKeepsInv(states, steps, i - 1);
      assert Next(states[i - 1], steps[i - 1]) == Some(states[i - 1 + 1]);
      StepKeepsInv(states[i - 1], steps[i - 1]);
    }
  }

  // ----- results -----

  /** In every interleaving of any number of processes: the claimed indices are
      exactly 0..k-1, no process owns two of them, and each document lies at
      its own index, was written by that index's owner and closes all four
      equations. */
  lemma ClaimSafety(states: seq<State>, steps: seq<Step>, n: nat)
    requires IsRun(states, steps) && n <= |steps|
    ensures var s := states[n];
      && (forall i: nat :: i in s.claims <==> i < |s.claims|)
      && |s.claims| <= MAX_JOB_DOCUMENTS
      && (forall i, j :: i in s.claims && j in s.claims && s.claims[i] == s.claims[j] ==> i == j)
      && (forall i :: i in s.documents ==> DocumentOk(s, i))
  {
    hide Next, Closes, Vocabulary;
    RunKeepsInv(states, steps, n);
    var s := states[n];
    SegmentSize(s.claims.Keys);
    assert |s.claims| == |s.claims.Keys|;
    forall i, j | i in s.claims && j in s.claims && s.claims[i] == s.claims[j] ensures i == j {
      assert ClaimOk(s, i) && ClaimOk(s, j);
    }
    assert MAX_JOB_DOCUMENTS in s.claims ==> ClaimOk(s, MAX_JOB_DOCUMENTS);
  }

  function FirstIndices(n: nat): (s: set<nat>)
    ensures |s| == n && forall i: nat :: i in s <==> i < n
  {
    if n == 0 then {} else FirstIndices(n - 1) + {n - 1}
  }

  lemma SegmentSize(s: set<nat>)
    requires forall i: nat, j :: i <= j && j in s ==> i in s
    ensures forall i: nat :: i in s <==> i < |s|
  {
    hide FirstIndices;
    var n: nat := 0;
    while n in s
      invariant n <= |s| && forall i: nat :: i < n ==> i in s
      decreases |s| - n
    {
      SubsetSize(FirstIndices(n + 1), s);
      n := n + 1;
    }
    assert s == FirstIndices(n);
  }

  /** A record that succeeds leaves, once renamed, the process's document with
      the counters after the event; a record that is refused, or not renamed,
      leaves all documents as they were.  The process goes on exactly if all of
      it succeeded. */
  lemma RecordLeavesDocument(s: State, p: Pid, ev: Event, renamed: bool, synced: bool)
    requires p in s.processes && s.processes[p].phase.Owner?
    ensures Next(s, RecordEvent(p, ev, renamed, synced)).Some?
    ensures var s', i := Next(s, RecordEvent(p, ev, renamed, synced)).value, s.processes[p].phase.index;
      var (c, ok) := Record(s.processes[p].counters, ev);
      && s'.claims == s.claims && s'.processes.Keys == s.processes.Keys && s'.processes[p].counters == c
      && (s'.processes[p].phase == if ok && renamed && synced then Owner(i) else Stopped(Some(i)))
      && (if ok && renamed then i in s'.documents && s'.documents[i] == Document(i, c, p)
                                && s'.documents.Keys == s.documents.Keys + {i}
          else s'.documents == s.documents)
      && forall j :: j in s.documents && j != i ==> j in s'.documents && s'.documents[j] == s.documents[j]
  {
    hide Record;
  }

  /** The last publication, at exit: once renamed, the document holds the final
      counters; nothing else changes but the process's own phase. */
  lemma ExitLeavesDocument(s: State, p: Pid, renamed: bool)
    requires p in s.processes && s.processes[p].phase.Owner?
    ensures Next(s, PublishAtExit(p, renamed)).Some?
    ensures var s', i := Next(s, PublishAtExit(p, renamed)).value, s.processes[p].phase.index;
      && s'.claims == s.claims
      && s'.processes == s.processes[p := Process(Stopped(Some(i)), s.processes[p].counters)]
      && s'.documents == if renamed then s.documents[i := Document(i, s.processes[p].counters, p)] else s.documents
  {
  }

  /** A claim takes the index it tries exactly if nobody has it. */
  lemma ClaimIff(s: State, p: Pid, writeOk: bool)
    requires p in s.processes && s.processes[p].phase.Seeking?
    ensures Next(s, TryClaim(p, writeOk)).Some?
    ensures var s', i := Next(s, TryClaim(p, writeOk)).value, s.processes[p].phase.next;
      && (s'.claims == if i < 100000 && i !in s.claims then s.claims[i := p] else s.claims)
      && s'.documents == s.documents
      && (s'.processes[p].phase ==
            if i >= 100000 then Stopped(None)
            else if i in s.claims then Seeking(i + 1)
            else if writeOk then Owner(i) else Stopped(Some(i)))
  {
  }

  /** A document is replaced only by a later version from the same process: a
      record publishes one more execution than any document before it. */
  lemma DocumentsKeepTheirWriter(s: State, step: Step, i: nat)
    requires Inv(s) && Next(s, step).Some? && i in s.documents
    ensures i in Next(s, step).value.documents
    ensures var d, d' := s.documents[i], Next(s, step).value.documents[i];
      && d'.writer == d.writer && d.counters.execs <= d'.counters.execs
      && (d' != d ==> step.p == d.writer && (step.RecordEvent? || step.PublishAtExit?))
      && (d' != d && step.RecordEvent? ==> d.counters.execs < d'.counters.execs)
  {
    hide Closes, Vocabulary, Record, Fresh;
    assert DocumentOk(s, i);
    if step.p in s.processes {
      assert ProcessOk(s, step.p, s.processes[step.p]);
      if step.RecordEvent? { RecordAdvances(s.processes[step.p].counters, step.ev); }
    }
  }
}
