/** The inventory walk over an extracted tree (backend/src/agents/fetch.rs:741-834)
    and its agreement with the extractor's caps. */
module TarSnapshot {
  import opened Text
  import opened TarFormat
  import opened TarDisk
  import opened TarArchive

  datatype Summary = Summary(files: nat, bytes: nat)

  /** Every entry lies in a directory; links are possible. */
  ghost predicate Rooted(t: Tree) {
    IsDir(t, []) && forall p {:trigger Parent(p)} :: p in t && p != [] ==> IsDir(t, Parent(p))
  }

  ghost function Files(t: Tree): set<Path> { set p | p in t && t[p].File? }

  /** What the walk must report: the number and size of the files, or a refusal
      when either passes its cap. */
  ghost function Inventory(t: Tree): Outcome<Summary> {
    if |Files(t)| > 20_000 || TreeBytes(t) > 157_286_400 then Err(PayloadTooLarge)
    else Ok(Summary(|Files(t)|, TreeBytes(t)))
  }

  // ---- the frontier ---------------------------------------------------------------------

  /** Some entry of `frontier` is `p` or above it. */
  ghost predicate Covers(frontier: seq<Path>, p: Path) {
    exists i :: 0 <= i < |frontier| && frontier[i] <= p
  }

  ghost predicate Apart(frontier: seq<Path>) {
    forall i, j :: 0 <= i < |frontier| && 0 <= j < |frontier| && i != j ==> !(frontier[i] <= frontier[j])
  }

  /** The walk's state: entries still to visit do not overlap, and every file was
      either counted or is still covered, never both. */
  ghost predicate Walking(t: Tree, frontier: seq<Path>, seen: set<Path>) {
    && (forall p :: p in frontier ==> p in t)
    && Apart(frontier)
    && seen <= Files(t)
    && (forall p :: p in seen ==> !Covers(frontier, p))
    && (forall p :: p in Files(t) && p !in seen ==> Covers(frontier, p))
  }

  lemma {:induction false} AboveIsDir(t: Tree, d: Path, p: Path)
    requires Rooted(t) && p in t && d <= p && d != p
    ensures IsDir(t, d)
    decreases |p|
  {
    assert IsDir(t, Parent(p));
    if d != Parent(p) {
      AboveIsDir(t, d, Parent(p));
    }
  }

  /** A visited leaf leaves the frontier; it is counted when it is a file. */
  lemma VisitLeaf(t: Tree, before: seq<Path>, e: Path, after: seq<Path>, seen: set<Path>)
    requires Rooted(t) && Walking(t, before + [e] + after, seen) && !IsDir(t, e)
    ensures e !in seen
    ensures Walking(t, before + after, if t[e].File? then seen + {e} else seen)
  {
    var old_, new_ := before + [e] + after, before + after;
    var k := |before|;
    assert old_[k] == e;
    assert Covers(old_, e);
    var seen' := if t[e].File? then seen + {e} else seen;
    forall i | 0 <= i < |new_|
      ensures new_[i] == old_[if i < k then i else i + 1]
    {
    }
    forall p | p in Files(t) && p !in seen'
      ensures Covers(new_, p)
    {
      var i :| 0 <= i < |old_| && old_[i] <= p;
      if i == k {
        AboveIsDir(t, e, p);
      }
      assert i != k;
      assert new_[if i < k then i else i - 1] <= p;
    }
  }

  /** What `read_dir` returns: the children, each once. */
  ghost predicate Lists(t: Tree, d: Path, entries: seq<Path>) {
    && (forall p :: p in entries <==> p in t && p != [] && Parent(p) == d)
    && (forall i, j :: 0 <= i < j < |entries| ==> entries[i] != entries[j])
  }

  /** Replacing a directory by its children keeps the walk's state. */
  lemma OpenDir(t: Tree, stack: seq<Path>, d: Path, entries: seq<Path>, seen: set<Path>)
    requires Rooted(t) && Walking(t, stack + [d], seen) && IsDir(t, d) && Lists(t, d, entries)
    ensures Walking(t, stack + entries, seen)
  {
    var old_, new_ := stack + [d], stack + entries;
    var k := |stack|;
    assert old_[k] == d;
    ChildrenApart(t, stack, d, entries);
    forall p | p in Files(t) && p !in seen
      ensures Covers(new_, p)
    {
      var i :| 0 <= i < |old_| && old_[i] <= p;
      if i == k {
        ChildAbove(t, d, p);
        var m :| 0 <= m < |entries| && entries[m] == p[..|d| + 1];
        assert new_[k + m] <= p;
      } else {
        assert new_[i] <= p;
      }
    }
    forall p | p in seen
      ensures !Covers(new_, p)
    {
      NotCoveredBelow(t, stack, d, entries, p);
    }
  }

  lemma ChildrenApart(t: Tree, stack: seq<Path>, d: Path, entries: seq<Path>)
    requires Apart(stack + [d]) && Lists(t, d, entries)
    ensures Apart(stack + entries)
  {
    var old_, new_ := stack + [d], stack + entries;
    var k := |stack|;
    assert old_[k] == d;
    forall i, j | 0 <= i < |new_| && 0 <= j < |new_| && i != j
      ensures !(new_[i] <= new_[j])
    {
      assert i >= k ==> new_[i] in entries;
      assert j >= k ==> new_[j] in entries;
      if i < k && j < k {
        assert old_[i] == new_[i] && old_[j] == new_[j];
      } else if i < k {
        // Above a child is above its directory, or is the child.
        assert !(old_[i] <= old_[k]) && !(old_[k] <= old_[i]);
      } else if j < k {
        assert !(old_[k] <= old_[j]);
      }
    }
  }

  lemma NotCoveredBelow(t: Tree, stack: seq<Path>, d: Path, entries: seq<Path>, p: Path)
    requires !Covers(stack + [d], p) && Lists(t, d, entries)
    ensures !Covers(stack + entries, p)
  {
    var old_, new_ := stack + [d], stack + entries;
    assert old_[|stack|] == d;
    forall i | 0 <= i < |new_|
      ensures !(new_[i] <= p)
    {
      assert i >= |stack| ==> new_[i] in entries;
      assert !(old_[if i < |stack| then i else |stack|] <= p);
    }
  }

  lemma ChildAbove(t: Tree, d: Path, p: Path)
    requires Rooted(t) && p in t && d <= p && d != p
    ensures p[..|d| + 1] in t && Parent(p[..|d| + 1]) == d
  {
    var c := p[..|d| + 1];
    if c != p {
      AboveIsDir(t, c, p);
    }
  }

  // ---- the walk -------------------------------------------------------------------------------

  /** `read_dir`: the children of a directory, in any order. */
  method ReadDir(t: Tree, d: Path) returns (entries: seq<Path>)
    ensures Lists(t, d, entries)
  {
    var left := set p | p in t && p != [] && Parent(p) == d;
    entries := [];
    while left != {}
      invariant forall p :: p in t && p != [] && Parent(p) == d <==> p in entries || p in left
      invariant forall p :: p in entries ==> p !in left
      invariant forall i, j :: 0 <= i < j < |entries| ==> entries[i] != entries[j]
      decreases |left|
    {
      var p :| p in left;
      entries := entries + [p];
      left := left - {p};
    }
  }

  ghost function Reachable(t: Tree, frontier: seq<Path>): set<Path> {
    set p | p in t && Covers(frontier, p)
  }

  /** The counters agree with the files seen so far. */
  ghost predicate Counted(t: Tree, seen: set<Path>, files: nat, bytes: nat) {
    && seen <= Files(t)
    && files == |seen| <= MAX_FILE_COUNT && bytes == SumOver(t, seen) <= MAX_TOTAL_BYTES
  }

  /** One file: counted, unless a cap is passed, which the whole tree then passes. */
  method CountFile(t: Tree, e: Path, files: nat, bytes: nat, ghost seen: set<Path>)
      returns (r: Outcome<Summary>)
    requires Counted(t, seen, files, bytes) && e in Files(t) && e !in seen
    ensures r.Ok? ==> Counted(t, seen + {e}, r.value.files, r.value.bytes)
    ensures r.Err? ==> r == Inventory(t)
  {
    SumRemove(t, seen + {e}, e);
    assert seen + {e} - {e} == seen;
    SeenWithin(t, seen + {e});
    if files + 1 > MAX_FILE_COUNT {
      return Err(PayloadTooLarge);
    }
    if bytes + Size(t[e]) > MAX_TOTAL_BYTES {
      return Err(PayloadTooLarge);
    }
    return Ok(Summary(files + 1, bytes + Size(t[e])));
  }

  ghost predicate AllDirs(t: Tree, stack: seq<Path>) { forall d :: d in stack ==> IsDir(t, d) }

  /** The entries of one directory: directories pushed, files counted, the rest
      skipped. */
  method VisitEntries(t: Tree, stack0: seq<Path>, entries: seq<Path>, files0: nat, bytes0: nat,
                      ghost seen0: set<Path>)
      returns (r: Outcome<Summary>, stack: seq<Path>, ghost seen: set<Path>)
    requires Rooted(t) && Walking(t, stack0 + entries, seen0) && AllDirs(t, stack0)
    requires Counted(t, seen0, files0, bytes0)
    ensures r.Err? ==> r == Inventory(t)
    ensures r.Ok? ==>
              && Walking(t, stack, seen) && AllDirs(t, stack)
              && Counted(t, seen, r.value.files, r.value.bytes)
              && Reachable(t, stack) <= Reachable(t, stack0 + entries)
  {
    r, stack, seen := Ok(Summary(files0, bytes0)), stack0, seen0;
    for i := 0 to |entries|
      invariant r.Ok? && Counted(t, seen, r.value.files, r.value.bytes)
      invariant Walking(t, stack + entries[i..], seen) && AllDirs(t, stack)
      invariant Reachable(t, stack + entries[i..]) <= Reachable(t, stack0 + entries)
    {
      var e := entries[i];
      assert stack + entries[i..] == stack + [e] + entries[i + 1..];
      assert (stack + [e] + entries[i + 1..])[|stack|] == e;
      if IsDir(t, e) {
        stack := stack + [e];
      } else {
        VisitLeaf(t, stack, e, entries[i + 1..], seen);
        CoversMore(stack, e, entries[i + 1..]);
        if t[e].File? {
          r := CountFile(t, e, r.value.files, r.value.bytes, seen);
          if r.Err? {
            return;
          }
          seen := seen + {e};
        }
      }
    }
    assert stack + entries[|entries|..] == stack;
  }

  /** `snapshot_repo`: with an explicit stack and any listing order, the walk
      counts every file once, and refuses exactly the trees over a cap. */
  method SnapshotRepo(t: Tree) returns (r: Outcome<Summary>)
    requires Rooted(t)
    ensures r == Inventory(t)
  {
    var stack: seq<Path> := [[]];
    ghost var seen: set<Path> := {};
    r := Ok(Summary(0, 0));
    assert stack[0] == [];
    while stack != []
      invariant r.Ok? && Counted(t, seen, r.value.files, r.value.bytes)
      invariant Walking(t, stack, seen) && AllDirs(t, stack)
      decreases |Reachable(t, stack)|
    {
      ghost var before := stack;
      var current := stack[|stack| - 1];
      assert stack == stack[..|stack| - 1] + [current];
      stack := stack[..|stack| - 1];
      var entries := ReadDir(t, current);
      OpenDir(t, stack, current, entries, seen);
      ShrinksOnOpen(t, stack, current, entries);
      r, stack, seen := VisitEntries(t, stack, entries, r.value.files, r.value.bytes, seen);
      if r.Err? {
        return;
      }
      StrictlyFewer(Reachable(t, stack), Reachable(t, before));
    }
    assert Files(t) == seen;
    SeenWithin(t, seen);
  }

  lemma StrictlyFewer(a: set<Path>, b: set<Path>)
    requires a < b
    ensures |a| < |b|
  {
    assert b == a + (b - a);
  }

  lemma CoversMore(before: seq<Path>, e: Path, after: seq<Path>)
    ensures forall p :: Covers(before + after, p) ==> Covers(before + [e] + after, p)
  {
    var few, more := before + after, before + [e] + after;
    forall p | Covers(few, p)
      ensures Covers(more, p)
    {
      var i :| 0 <= i < |few| && few[i] <= p;
      assert more[if i < |before| then i else i + 1] == few[i];
    }
  }

  /** Opening a directory takes at least the directory itself off the reach. */
  lemma ShrinksOnOpen(t: Tree, stack: seq<Path>, d: Path, entries: seq<Path>)
    requires Rooted(t) && Apart(stack + [d]) && IsDir(t, d) && Lists(t, d, entries)
    ensures Reachable(t, stack + entries) < Reachable(t, stack + [d])
  {
    var old_, new_ := stack + [d], stack + entries;
    var k := |stack|;
    assert old_[k] == d;
    forall p | Covers(new_, p)
      ensures Covers(old_, p)
    {
      var i :| 0 <= i < |new_| && new_[i] <= p;
      if i >= k {
        assert new_[i] in entries;
      }
      assert old_[if i < k then i else k] <= p;
    }
    assert d in Reachable(t, old_);
    forall i | 0 <= i < |new_|
      ensures !(new_[i] <= d)
    {
      if i < k {
        assert new_[i] == old_[i] && !(old_[i] <= old_[k]);
      } else {
        assert new_[i] in entries;
      }
    }
  }

  /** Counted files are among the files, and all other entries weigh nothing. */
  lemma SeenWithin(t: Tree, seen: set<Path>)
    requires seen <= Files(t)
    ensures |seen| <= |Files(t)| && SumOver(t, seen) <= TreeBytes(t)
    ensures seen == Files(t) ==> SumOver(t, seen) == TreeBytes(t)
  {
    var rest := Files(t) - seen;
    assert Files(t) == seen + rest;
    SumGrows(t, seen, rest);
    assert t.Keys == Files(t) + (t.Keys - Files(t));
    SumEmptyNodes(t, Files(t), t.Keys - Files(t));
  }

  lemma {:induction false} SumGrows(t: Tree, ps: set<Path>, more: set<Path>)
    requires ps <= t.Keys && more <= t.Keys && ps !! more
    ensures SumOver(t, ps) <= SumOver(t, ps + more)
    decreases |more|
  {
    if more == {} {
      assert ps + more == ps;
    } else {
      var p :| p in more;
      SumRemove(t, ps + more, p);
      assert ps + more - {p} == ps + (more - {p});
      SumGrows(t, ps, more - {p});
    }
  }

  // ---- the extractor's trees pass ------------------------------------------------------------

  lemma FilesOfMakeDirs(t: Tree, p: Path)
    requires MakeDirs(t, p).Ok?
    ensures Files(MakeDirs(t, p).value) == Files(t)
  {
  }

  lemma FilesOfApply(e: Archive, s: State)
    requires e.Entry?
    ensures match Apply(e, s)
            case Go(next) =>
              |Files(next.tree)| <= |Files(s.tree)| + next.count - s.count && next.count >= s.count
            case Halt(_, t) => |Files(t)| <= |Files(s.tree)|
  {
    if IsFileFlag(e.head.flag) {
      FilesOfApplyFile(e, s);
    } else if e.head.flag == DIRECTORY {
      match Resolve(EntryName(e, s))
      case Err(_) =>
      case Ok(path) =>
        if MakeDirs(s.tree, path).Ok? {
          FilesOfMakeDirs(s.tree, path);
        }
    }
  }

  lemma FilesOfApplyFile(e: Archive, s: State)
    requires e.Entry?
    ensures match ApplyFile(Admitted(e, s), e, s)
            case Go(next) => |Files(next.tree)| <= |Files(s.tree)| + 1 && next.count == s.count + 1
            case Halt(_, t) => |Files(t)| <= |Files(s.tree)|
  {
    match Admitted(e, s)
    case Err(_) =>
    case Ok(path) =>
      FilesOfOpen(s.tree, path, e.body);
  }

  lemma FilesOfOpen(t: Tree, path: Path, body: seq<byte>)
    ensures var u := Open(t, path);
            && (u.result.Err? ==> |Files(u.tree)| <= |Files(t)|)
            && |Files(u.tree[path := File(body)])| <= |Files(t)| + 1
            && |Files(u.tree - {path})| <= |Files(t)|
  {
    OpenTouchesOnly(t, path);
    FilesOfChange(t, Open(t, path).tree, path, body);
  }

  lemma FilesOfChange(t: Tree, u: Tree, path: Path, body: seq<byte>)
    requires Files(u) - {path} <= Files(t)
    ensures |Files(u[path := File(body)])| <= |Files(t)| + 1 && |Files(u - {path})| <= |Files(t)|
  {
    SmallerSet(Files(u - {path}), Files(t));
    OneMore(Files(u[path := File(body)]), Files(t), path);
  }

  lemma OneMore(a: set<Path>, b: set<Path>, p: Path)
    requires a - {p} <= b
    ensures |a| <= |b| + 1
  {
    SmallerSet(a - {p}, b);
    if p in a {
      assert a == a - {p} + {p};
    } else {
      assert a == a - {p};
    }
  }

  lemma OpenTouchesOnly(t: Tree, path: Path)
    ensures Files(Open(t, path).tree) - {path} <= Files(t)
    ensures Open(t, path).result.Err? ==> Files(Open(t, path).tree) == Files(t)
  {
    if path != [] && MakeDirs(t, Parent(path)).Ok? {
      FilesOfMakeDirs(t, Parent(path));
    }
  }

  /** Every way an extraction into an empty directory ends leaves a contained tree
      within both caps. */
  lemma {:induction false} ReplayWithinCaps(a: Archive, s: State)
    requires Trimmable(a) && Sound(s, 0) && |Files(s.tree)| <= s.count
    ensures var t := Replay(a, s).tree;
            WellFormed(t) && |Files(t)| <= MAX_FILE_COUNT && 2 * TreeBytes(t) <= MAX_TOTAL_BYTES
  {
    if a.Entry? {
      ApplyKeepsSound(a, s, 0);
      FilesOfApply(a, s);
      var step := Apply(a, s);
      if step.Go? && a.cut.None? {
        ReplayWithinCaps(a.rest, step.state);
      }
    }
  }

  /** So the inventory of a freshly extracted tree is never refused, and the files
      take at most half the budget, having been charged twice. */
  lemma SnapshotAcceptsExtraction(read: Reader, data: seq<byte>, corrupt: bool)
    ensures var t := Replay(Cut(read, data, corrupt, 0), Start(EMPTY)).tree;
            Rooted(t) && Inventory(t) == Ok(Summary(|Files(t)|, TreeBytes(t)))
            && 2 * TreeBytes(t) <= MAX_TOTAL_BYTES
  {
    EmptyIsSound();
    ReplayWithinCaps(Cut(read, data, corrupt, 0), Start(EMPTY));
  }

  lemma EmptyIsSound()
    ensures Sound(Start(EMPTY), 0) && Files(EMPTY) == {}
  {
    SumRemove(EMPTY, EMPTY.Keys, []);
    assert EMPTY.Keys - {[]} == {};
    assert OrdinaryPath([]);
  }
}
