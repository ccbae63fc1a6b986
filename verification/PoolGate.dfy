/** The capacity gate in front of a push (scripts/validate_pool_capacity.py):
    the staged corpus directories go through the reader's own scan.  The gate
    sees one listing order, the readers see others; the scan is order-blind, so
    one accepting listing makes the directory readable in every order. */
module PoolGate {
  import opened Sequences
  import opened BrainPaths
  import opened Inventory
  import opened PoolTree

  function KindOf(m: Mode): (k: Kind)
  {
    match m
    case Regular => RegularFile
    case Executable => RegularFile
    case Symlink => SymbolicLink
    case Gitlink => OtherKind
  }

  /** A directory entry that a checkout of `t` shows below corpus/<harness>. */
  ghost predicate IsChild(t: Tree, h: string, e: DirEntry)
  {
    var p := CorpusDir(h) + e.name;
    && e.name != "" && SlashFree(e.name)
    && (|| (p in t && e == DirEntry(e.name, true, KindOf(t[p].mode), t[p].blob))
        || ((exists q :: q in t && p + "/" <= q) && e == DirEntry(e.name, true, OtherKind, [])))
  }

  /** `src` is what scanning corpus/<harness> of the checked-out tree can show. */
  ghost predicate ListsDirectory(t: Tree, h: string, src: Source)
  {
    if "corpus/" + h in t then src == NotADirectory
    else src.Directory? && src.complete && Distinct(src.entries) && forall e :: e in src.entries <==> IsChild(t, h, e)
  }

  ghost predicate HasCorpus(t: Tree, h: string)
  {
    "corpus/" + h in t || exists p :: p in t && CorpusDir(h) <= p
  }

  /** The gate passes with the listings that this scan happened to see. */
  ghost predicate Gate(t: Tree, scans: map<string, Source>)
  {
    forall h :: h in HARNESSES && HasCorpus(t, h) ==>
      h in scans && ListsDirectory(t, h, scans[h]) && Accepts([scans[h]])
  }

  /** Every reader accepts, whatever order its own scan meets the files in. */
  ghost predicate Readable(t: Tree)
  {
    forall h, src :: h in HARNESSES && HasCorpus(t, h) && ListsDirectory(t, h, src) ==> Accepts([src])
  }

  lemma ListingsAgree(t: Tree, h: string, a: Source, b: Source)
    requires ListsDirectory(t, h, a) && ListsDirectory(t, h, b)
    ensures Accepts([a]) <==> Accepts([b])
  {
    hide IsChild, Totals, Admissible;
    if a.Directory? {
      DistinctSameElements(a.entries, b.entries);
      assert AllEntries([a]) == a.entries && AllEntries([b]) == b.entries;
      ScanOrderIrrelevant([a], [b]);
    }
  }

  lemma GateMakesReadable(t: Tree, scans: map<string, Source>)
    requires Gate(t, scans)
    ensures Readable(t)
  {
    hide ListsDirectory, Accepts, HasCorpus;
    forall h, src | h in HARNESSES && HasCorpus(t, h) && ListsDirectory(t, h, src) ensures Accepts([src]) {
      ListingsAgree(t, h, scans[h], src);
    }
  }

  lemma MalformedChildRejects(t: Tree, h: string, e: DirEntry, src: Source)
    requires ListsDirectory(t, h, src) && IsChild(t, h, e) && !WellFormed(e)
    ensures !Accepts([src])
  {
    hide IsChild, WellFormed;
    if src.Directory? {
      assert AllEntries([src]) == src.entries;
      assert "corpus/" + h !in t ==> e in src.entries;
    }
  }

  /** One unit above the reader's cap shuts the gate for the whole pool. */
  lemma OversizeUnitShutsGate(t: Tree, h: string, name: string, scans: map<string, Source>)
    requires h in HARNESSES && IsUnitName(name) && CorpusDir(h) + name in t
    requires |t[CorpusDir(h) + name].blob| > MAX_UNIT_BYTES
    ensures !Gate(t, scans)
  {
    hide ListsDirectory, Accepts, CorpusDir, HARNESSES;
    var p := CorpusDir(h) + name;
    var e := DirEntry(name, true, KindOf(t[p].mode), t[p].blob);
    assert IsChild(t, h, e);
    assert HasCorpus(t, h);
    if h in scans && ListsDirectory(t, h, scans[h]) { MalformedChildRejects(t, h, e, scans[h]); }
  }

  // ----- what the gate asks, read off a listing -----

  /** Entries of a tree, each at least once. */
  ghost predicate Covers(t: Tree, xs: seq<(string, Entry)>)
  {
    && (forall x :: x in xs ==> x.0 in t && t[x.0] == x.1)
    && (forall p :: p in t ==> (p, t[p]) in xs)
  }

  predicate Below(h: string, p: string)
  {
    CorpusDir(h) < p && p[|CorpusDir(h)|] != '/'
  }

  function Child(h: string, x: (string, Entry)): (e: DirEntry)
    requires Below(h, x.0)
  {
    DirEntry(x.0[|CorpusDir(h)|..], true, KindOf(x.1.mode), x.1.blob)
  }

  /** The scan takes regular and executable files up to 1 MiB under the names
      of units, and neither symbolic links nor submodules. */
  lemma ChildIff(h: string, x: (string, Entry))
    requires Below(h, x.0)
    ensures WellFormed(Child(h, x)) <==>
      && IsUnitName(x.0[|CorpusDir(h)|..]) && |x.1.blob| <= 1_048_576
      && (x.1.mode == Regular || x.1.mode == Executable)
  {
    hide IsUnitName, CorpusDir;
  }

  /** The corpus entries of one harness, without repetitions. */
  function CorpusEntries(h: string, xs: seq<(string, Entry)>): (es: seq<DirEntry>)
  {
    if xs == [] then []
    else
      var rest := CorpusEntries(h, xs[1..]);
      if Below(h, xs[0].0) && xs[0] !in xs[1..] then [Child(h, xs[0])] + rest else rest
  }

  /** The corpus directory of the harness is a directory whose entries are all
      well formed (at most 1 MiB each) and together meet every cap. */
  ghost predicate RoomFor(h: string, xs: seq<(string, Entry)>)
  {
    (forall x :: x in xs ==> x.0 != "corpus/" + h) && Admissible(CorpusEntries(h, xs))
  }

  ghost predicate FromEntry(h: string, xs: seq<(string, Entry)>, e: DirEntry, x: (string, Entry))
  {
    x in xs && Below(h, x.0) && e == Child(h, x)
  }

  lemma {:induction false} CorpusEntriesMembers(h: string, xs: seq<(string, Entry)>, e: DirEntry)
    ensures e in CorpusEntries(h, xs) <==> exists x :: FromEntry(h, xs, e, x)
  {
    hide Below, Child;
    if xs != [] {
      CorpusEntriesMembers(h, xs[1..], e);
      assert forall x :: x in xs <==> x == xs[0] || x in xs[1..];
      if e in CorpusEntries(h, xs[1..]) {
        var x :| FromEntry(h, xs[1..], e, x);
        assert FromEntry(h, xs, e, x);
      } else if e in CorpusEntries(h, xs) {
        assert FromEntry(h, xs, e, xs[0]);
      }
      if exists x :: FromEntry(h, xs, e, x) {
        var x :| FromEntry(h, xs, e, x);
        if x in xs[1..] { assert FromEntry(h, xs[1..], e, x); }
      }
    }
  }

  lemma ChildInjective(h: string, x: (string, Entry), y: (string, Entry))
    requires Below(h, x.0) && Below(h, y.0) && Child(h, x).name == Child(h, y).name
    ensures x.0 == y.0
  {
    assert x.0 == CorpusDir(h) + Child(h, x).name && y.0 == CorpusDir(h) + Child(h, y).name;
  }

  /** One path, one entry. */
  ghost predicate Functional(xs: seq<(string, Entry)>)
  {
    forall x, y :: x in xs && y in xs && x.0 == y.0 ==> x == y
  }

  lemma {:induction false} CorpusEntriesDistinct(h: string, xs: seq<(string, Entry)>)
    requires Functional(xs)
    ensures Distinct(CorpusEntries(h, xs))
  {
    hide Below, Child;
    if xs != [] {
      CorpusEntriesDistinct(h, xs[1..]);
      if Below(h, xs[0].0) && xs[0] !in xs[1..] {
        var e := Child(h, xs[0]);
        CorpusEntriesMembers(h, xs[1..], e);
        if e in CorpusEntries(h, xs[1..]) {
          var x :| FromEntry(h, xs[1..], e, x);
          ChildInjective(h, xs[0], x);
        }
      }
    }
  }

  /** If no path is nested deeper, the scan shows exactly the listed entries. */
  lemma ChildrenAre(t: Tree, h: string, xs: seq<(string, Entry)>, e: DirEntry)
    requires Covers(t, xs) && forall x :: x in xs && Below(h, x.0) ==> SlashFree(Child(h, x).name)
    ensures IsChild(t, h, e) <==> e in CorpusEntries(h, xs)
  {
    hide CorpusEntries, KindOf;
    CorpusEntriesMembers(h, xs, e);
    if IsChild(t, h, e) {
      ChildListed(t, h, xs, e);
    }
    if e in CorpusEntries(h, xs) {
      var x :| FromEntry(h, xs, e, x);
      assert x.0 == CorpusDir(h) + e.name;
    }
  }

  lemma ChildListed(t: Tree, h: string, xs: seq<(string, Entry)>, e: DirEntry)
    requires Covers(t, xs) && forall x :: x in xs && Below(h, x.0) ==> SlashFree(Child(h, x).name)
    requires IsChild(t, h, e)
    ensures exists x :: FromEntry(h, xs, e, x)
  {
    hide KindOf;
    var p := CorpusDir(h) + e.name;
    if p in t && e == DirEntry(e.name, true, KindOf(t[p].mode), t[p].blob) {
      var x := (p, t[p]);
      assert p[|CorpusDir(h)|..] == e.name;
      assert FromEntry(h, xs, e, x);
    } else {
      DeepPath(t, h, xs, e.name);
    }
  }

  lemma DeepPath(t: Tree, h: string, xs: seq<(string, Entry)>, name: string)
    requires Covers(t, xs) && name != "" && SlashFree(name) && exists q :: q in t && CorpusDir(h) + name + "/" <= q
    ensures exists x :: x in xs && Below(h, x.0) && !SlashFree(Child(h, x).name)
  {
    hide KindOf;
    var q :| q in t && CorpusDir(h) + name + "/" <= q;
    var x := (q, t[q]);
    assert x in xs && Below(h, q);
    assert Child(h, x).name[|name|] == '/';
  }

  /** A path nested deeper shows up as a subdirectory, which no scan accepts. */
  lemma NestedRejects(t: Tree, h: string, xs: seq<(string, Entry)>, x: (string, Entry), src: Source)
    requires Covers(t, xs) && x in xs && Below(h, x.0) && !SlashFree(Child(h, x).name)
    requires ListsDirectory(t, h, src)
    ensures !Accepts([src]) && !Admissible(CorpusEntries(h, xs))
  {
    hide CorpusEntries, ListsDirectory, Accepts, WithinCaps;
    var n := Child(h, x).name;
    var k := FirstSlash(n);
    var e := DirEntry(n[..k], true, OtherKind, []);
    assert x.0 == CorpusDir(h) + n && n == n[..k] + "/" + n[k + 1..];
    assert CorpusDir(h) + n[..k] + "/" <= x.0;
    assert IsChild(t, h, e);
    MalformedChildRejects(t, h, e, src);
    assert FromEntry(h, xs, Child(h, x), x);
    CorpusEntriesMembers(h, xs, Child(h, x));
    UnitNamesAreSlashFree(n);
  }

  lemma UnitNamesAreSlashFree(n: string)
    ensures IsUnitName(n) ==> SlashFree(n)
  {
  }

  lemma FirstSlash(s: string) returns (k: nat)
    requires !SlashFree(s)
    ensures k < |s| && s[k] == '/' && SlashFree(s[..k])
  {
    k := 0;
    while s[k] != '/'
      invariant k < |s| && SlashFree(s[..k]) && exists i :: k <= i < |s| && s[i] == '/'
      decreases |s| - k
    {
      k := k + 1;
    }
  }

  lemma ScanIff(t: Tree, h: string, xs: seq<(string, Entry)>, src: Source)
    requires Covers(t, xs) && ListsDirectory(t, h, src)
    ensures Accepts([src]) <==> RoomFor(h, xs)
  {
    hide IsChild, CorpusEntries, Totals, Admissible, Below, Child;
    if "corpus/" + h in t {
      assert ("corpus/" + h, t["corpus/" + h]) in xs;
    } else if x :| x in xs && Below(h, x.0) && !SlashFree(Child(h, x).name) {
      NestedRejects(t, h, xs, x, src);
    } else {
      forall e ensures e in src.entries <==> e in CorpusEntries(h, xs) { ChildrenAre(t, h, xs, e); }
      CorpusEntriesDistinct(h, xs);
      DistinctSameElements(src.entries, CorpusEntries(h, xs));
      TotalsPermutation(src.entries, CorpusEntries(h, xs));
      assert AllEntries([src]) == src.entries;
    }
  }

  lemma {:induction false} NothingBelow(h: string, xs: seq<(string, Entry)>)
    requires forall x :: x in xs ==> !Below(h, x.0)
    ensures CorpusEntries(h, xs) == []
  {
    if xs != [] { NothingBelow(h, xs[1..]); }
  }

  lemma NoCorpusRoom(t: Tree, h: string, xs: seq<(string, Entry)>)
    requires Covers(t, xs) && !HasCorpus(t, h)
    ensures RoomFor(h, xs)
  {
    hide CorpusEntries, Admissible;
    NothingBelow(h, xs);
    NothingSeen(None);
  }

  /** The scans are listings of the corpus directories of `t`. */
  ghost predicate ScansOf(t: Tree, scans: map<string, Source>)
  {
    forall h :: h in HARNESSES && HasCorpus(t, h) ==> h in scans && ListsDirectory(t, h, scans[h])
  }

  /** The gate opens exactly when there is room for the entries of every
      harness: whatever order the scans saw, and from a listing alone. */
  lemma GateIff(t: Tree, xs: seq<(string, Entry)>, scans: map<string, Source>)
    requires Covers(t, xs) && ScansOf(t, scans)
    ensures Gate(t, scans) <==> forall h :: h in HARNESSES ==> RoomFor(h, xs)
  {
    hide Covers, HasCorpus, ListsDirectory, Accepts, RoomFor, HARNESSES;
    forall h | h in HARNESSES
      ensures (HasCorpus(t, h) ==> Accepts([scans[h]])) <==> RoomFor(h, xs)
    {
      if HasCorpus(t, h) { ScanIff(t, h, xs, scans[h]); } else { NoCorpusRoom(t, h, xs); }
    }
  }
}
