/** The extraction directory: a tree of entries below the destination, and the
    file-system calls the extractor makes on it. */
module TarDisk {
  import opened Text
  import opened TarFormat

  datatype Node = Dir | File(bytes: seq<byte>) | Link

  /** Entries by their components; the destination itself is `[]`. */
  type Tree = map<Path, Node>

  function Parent(p: Path): Path
    requires p != []
  {
    p[..|p| - 1]
  }

  function Prefixes(p: Path): set<Path> { set i | 0 <= i <= |p| :: p[..i] }

  predicate HasNul(p: Path) { exists i :: 0 <= i < |p| && '\0' in p[i] }

  predicate IsDir(t: Tree, p: Path) { p in t && t[p].Dir? }

  predicate OrdinaryPath(p: Path) { forall c :: c in p ==> Ordinary(c) }

  /** A tree of directories and files below the destination: no links, every
      entry inside a directory, every component ordinary. */
  ghost predicate WellFormed(t: Tree) {
    && IsDir(t, [])
    && (forall p {:trigger Parent(p)} :: p in t && p != [] ==> IsDir(t, Parent(p)))
    && (forall p :: p in t ==> !t[p].Link? && OrdinaryPath(p))
  }

  const EMPTY: Tree := map[[] := Dir]

  // ---- what the calls do ----------------------------------------------------------

  /** `create_dir_all`: fails, changing nothing, when an entry on the way is not
      a directory. */
  function MakeDirs(t: Tree, p: Path): (r: Outcome<Tree>)
    ensures r.Err? ==> r.fault.Internal?
  {
    if HasNul(p) || exists i :: 0 <= i <= |p| && p[..i] in t && !IsDir(t, p[..i]) then
      Err(Internal(MakeDirFailed))
    else
      Ok(map q | q in t.Keys + Prefixes(p) :: if q in t then t[q] else Dir)
  }

  /** `File::create`: an empty file, truncating what was there. */
  function CreateFile(t: Tree, p: Path): (r: Outcome<Tree>)
    ensures r.Err? ==> r.fault.Internal?
  {
    if HasNul(p) || p == [] || IsDir(t, p) || !IsDir(t, Parent(p)) then Err(Internal(WriteFailed))
    else Ok(t[p := File([])])
  }

  lemma MakeDirsWellFormed(t: Tree, p: Path)
    requires WellFormed(t) && OrdinaryPath(p) && MakeDirs(t, p).Ok?
    ensures WellFormed(MakeDirs(t, p).value) && IsDir(MakeDirs(t, p).value, p)
  {
    var u := MakeDirs(t, p).value;
    assert p == p[..|p|];
    forall q | q in u
      ensures !u[q].Link? && OrdinaryPath(q) && (q != [] ==> IsDir(u, Parent(q)))
    {
      if q !in t {
        var i :| 0 <= i <= |p| && q == p[..i];
        if q != [] {
          assert Parent(q) == p[..i - 1];
        }
      }
    }
  }

  lemma CreateFileWellFormed(t: Tree, p: Path, bytes: seq<byte>)
    requires WellFormed(t) && OrdinaryPath(p) && CreateFile(t, p).Ok?
    ensures WellFormed(t[p := File(bytes)]) && WellFormed(t - {p})
  {
    forall q {:trigger Parent(q)} | q != [] && q in t
      ensures Parent(q) != p
    {
      assert IsDir(t, Parent(q));
    }
  }

  // ---- bytes on disk -----------------------------------------------------------------

  function Size(n: Node): nat { if n.File? then |n.bytes| else 0 }

  ghost function SumOver(t: Tree, ps: set<Path>): nat
    requires ps <= t.Keys
  {
    if ps == {} then 0
    else
      var p :| p in ps;
      Size(t[p]) + SumOver(t, ps - {p})
  }

  /** All file bytes of a tree. */
  ghost function TreeBytes(t: Tree): nat { SumOver(t, t.Keys) }

  lemma {:induction false} SumRemove(t: Tree, ps: set<Path>, p: Path)
    requires ps <= t.Keys && p in ps
    ensures SumOver(t, ps) == Size(t[p]) + SumOver(t, ps - {p})
    decreases |ps|
  {
    var q :| q in ps && SumOver(t, ps) == Size(t[q]) + SumOver(t, ps - {q});
    if q != p {
      SumRemove(t, ps - {q}, p);
      SumRemove(t, ps - {p}, q);
      assert ps - {p} - {q} == ps - {q} - {p};
    }
  }

  lemma {:induction false} SumSame(t: Tree, u: Tree, ps: set<Path>)
    requires ps <= t.Keys && ps <= u.Keys
    requires forall p :: p in ps ==> Size(t[p]) == Size(u[p])
    ensures SumOver(t, ps) == SumOver(u, ps)
    decreases |ps|
  {
    if ps != {} {
      var p :| p in ps;
      SumRemove(t, ps, p);
      SumRemove(u, ps, p);
      SumSame(t, u, ps - {p});
    }
  }

  lemma {:induction false} SumEmptyNodes(t: Tree, ps: set<Path>, more: set<Path>)
    requires ps <= t.Keys && more <= t.Keys && ps !! more
    requires forall p :: p in more ==> Size(t[p]) == 0
    ensures SumOver(t, ps + more) == SumOver(t, ps)
    decreases |more|
  {
    if more == {} {
      assert ps + more == ps;
    } else {
      var p :| p in more;
      SumRemove(t, ps + more, p);
      assert ps + more - {p} == ps + (more - {p});
      SumEmptyNodes(t, ps, more - {p});
    }
  }

  /** Setting one entry changes the byte count by the difference at that entry. */
  lemma BytesOfUpdate(t: Tree, p: Path, n: Node)
    ensures TreeBytes(t[p := n]) + (if p in t then Size(t[p]) else 0) == TreeBytes(t) + Size(n)
  {
    var u := t[p := n];
    SumRemove(u, u.Keys, p);
    assert u.Keys - {p} == t.Keys - {p};
    SumSame(t, u, t.Keys - {p});
    if p in t {
      SumRemove(t, t.Keys, p);
    } else {
      assert t.Keys - {p} == t.Keys;
    }
  }

  lemma BytesOfRemove(t: Tree, p: Path)
    requires p in t
    ensures TreeBytes(t - {p}) + Size(t[p]) == TreeBytes(t)
  {
    SumRemove(t, t.Keys, p);
    assert (t - {p}).Keys == t.Keys - {p};
    SumSame(t, t - {p}, t.Keys - {p});
  }

  lemma BytesOfMakeDirs(t: Tree, p: Path)
    requires MakeDirs(t, p).Ok?
    ensures TreeBytes(MakeDirs(t, p).value) == TreeBytes(t)
  {
    var u := MakeDirs(t, p).value;
    var more := u.Keys - t.Keys;
    assert u.Keys == t.Keys + more;
    SumEmptyNodes(u, t.Keys, more);
    SumSame(t, u, t.Keys);
  }

  // ---- the directory ------------------------------------------------------------------

  /** The directory the extractor writes into. `Valid` holds between any two of
      its calls, so what it says holds at every moment of an extraction: the tree
      is contained, free of links, and within its byte ceiling. */
  class Disk {
    var tree: Tree
    ghost const ceiling: nat

    ghost predicate Valid()
      reads this
    {
      WellFormed(tree) && TreeBytes(tree) <= ceiling
    }

    constructor (initial: Tree)
      requires WellFormed(initial)
      ensures Valid() && tree == initial && ceiling == TreeBytes(initial) + MAX_TOTAL_BYTES
    {
      tree := initial;
      ceiling := TreeBytes(initial) + MAX_TOTAL_BYTES;
    }

    /** `symlink_metadata(..).is_symlink()`. */
    method IsSymlink(p: Path) returns (b: bool)
      ensures b == (p in tree && tree[p].Link?)
    {
      b := p in tree && tree[p].Link?;
    }

    method CreateDirAll(p: Path) returns (r: Outcome<()>)
      requires Valid() && OrdinaryPath(p)
      modifies this`tree
      ensures Valid()
      ensures match MakeDirs(old(tree), p)
              case Ok(t) => r == Ok(()) && tree == t
              case Err(e) => r == Err(e) && tree == old(tree)
    {
      match MakeDirs(tree, p)
      case Ok(t) =>
        MakeDirsWellFormed(tree, p);
        BytesOfMakeDirs(tree, p);
        tree := t;
        r := Ok(());
      case Err(e) =>
        r := Err(e);
    }

    method Create(p: Path) returns (r: Outcome<()>)
      requires Valid() && OrdinaryPath(p)
      modifies this`tree
      ensures Valid()
      ensures match CreateFile(old(tree), p)
              case Ok(t) => r == Ok(()) && tree == t && TreeBytes(tree) <= TreeBytes(old(tree))
              case Err(e) => r == Err(e) && tree == old(tree)
    {
      match CreateFile(tree, p)
      case Ok(t) =>
        CreateFileWellFormed(tree, p, []);
        BytesOfUpdate(tree, p, File([]));
        tree := t;
        r := Ok(());
      case Err(e) =>
        r := Err(e);
    }

    /** `write_all` on the file created at `p`. */
    method Append(p: Path, chunk: seq<byte>)
      requires Valid() && p in tree && tree[p].File?
      requires TreeBytes(tree) + |chunk| <= ceiling
      modifies this`tree
      ensures Valid()
      ensures tree == old(tree)[p := File(old(tree)[p].bytes + chunk)]
      ensures TreeBytes(tree) == TreeBytes(old(tree)) + |chunk|
    {
      BytesOfUpdate(tree, p, File(tree[p].bytes + chunk));
      tree := tree[p := File(tree[p].bytes + chunk)];
    }

    method RemoveFile(p: Path)
      requires Valid() && p in tree && tree[p].File?
      modifies this`tree
      ensures Valid()
      ensures tree == old(tree) - {p}
      ensures TreeBytes(tree) <= TreeBytes(old(tree))
    {
      BytesOfRemove(tree, p);
      tree := tree - {p};
    }
  }
}
