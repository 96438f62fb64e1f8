/** Writing a tree as a tar stream and extracting it again. */
module TarRoundTrip {
  import opened Text
  import opened TarFormat
  import opened TarDisk
  import opened TarArchive

  // ---- one member of the stream -----------------------------------------------------

  /** The header fields the extractor does not look at; they hold anything. */
  datatype Frame = Frame(mode: seq<byte>, check: seq<byte>, link: seq<byte>, tail: seq<byte>)

  /** A header with its body and padding; `size` is the field that spells the
      body's length. */
  datatype Member = Member(raw: seq<byte>, size: seq<byte>, flag: byte, prefix: seq<byte>, frame: Frame,
                           body: seq<byte>, padding: seq<byte>)

  function HeaderBlock(m: Member): seq<byte> {
    m.raw + (m.frame.mode + (m.size + (m.frame.check + ([m.flag] + (m.frame.link + (m.prefix + m.frame.tail))))))
  }

  function MemberBytes(m: Member): seq<byte> { HeaderBlock(m) + m.body + m.padding }

  /** The field widths of the ustar header, a size that says the body's length,
      and the padding of a whole record. */
  predicate Laid(m: Member) {
    && |m.raw| == 100 && |m.frame.mode| == 24 && |m.size| == 12 && |m.frame.check| == 20
    && |m.frame.link| == 188 && |m.prefix| == 155 && |m.frame.tail| == 12
    && SizeOf(m.size) == Some(|m.body|) && |m.padding| == Pad(|m.body|)
    && !AllZero(HeaderBlock(m))
  }

  function HeadOf(m: Member): Header { Header(CStr(m.raw), |m.body|, m.flag, CStr(m.prefix)) }

  /** The first of two pieces found at a position, and where the second starts. */
  lemma Peel(h: seq<byte>, at: nat, piece: seq<byte>, rest: seq<byte>)
    requires at <= |h| && h[at..] == piece + rest
    ensures at + |piece| <= |h| && h[at..at + |piece|] == piece && h[at + |piece|..] == rest
  {
    assert h[at..at + |piece|] == h[at..][..|piece|];
    assert h[at + |piece|..] == h[at..][|piece|..];
  }

  lemma BlockFields(m: Member)
    requires Laid(m)
    ensures var h := HeaderBlock(m);
            && |h| == BLOCK && h[..100] == m.raw && h[124..136] == m.size && h[156] == m.flag
            && h[345..500] == m.prefix
  {
    var h := HeaderBlock(m);
    var after := m.frame.link + (m.prefix + m.frame.tail);
    assert h[0..] == h;
    Peel(h, 0, m.raw, m.frame.mode + (m.size + (m.frame.check + ([m.flag] + after))));
    Peel(h, 100, m.frame.mode, m.size + (m.frame.check + ([m.flag] + after)));
    Peel(h, 124, m.size, m.frame.check + ([m.flag] + after));
    Peel(h, 136, m.frame.check, [m.flag] + after);
    Peel(h, 156, [m.flag], after);
    Peel(h, 157, m.frame.link, m.prefix + m.frame.tail);
    Peel(h, 345, m.prefix, m.frame.tail);
  }

  /** The reader makes of the member's block the header that was written. */
  predicate Recognizes(read: Reader, m: Member) { read(HeaderBlock(m)) == Describes(HeadOf(m)) }

  lemma MemberIsRead(m: Member)
    requires Laid(m)
    ensures Recognizes(ReadBlock, m)
  {
    BlockFields(m);
  }

  lemma SliceShift(before: seq<byte>, data: seq<byte>, i: nat, j: nat)
    requires i <= j <= |data|
    ensures (before + data)[|before| + i..|before| + j] == data[i..j]
  {
  }

  /** What is cut from a position does not depend on the bytes before it. */
  lemma {:induction false} CutShift(read: Reader, before: seq<byte>, data: seq<byte>, corrupt: bool, pos: nat)
    requires pos <= |data|
    ensures Cut(read, before + data, corrupt, |before| + pos) == Cut(read, data, corrupt, pos)
    decreases |data| - pos
  {
    var whole := before + data;
    var k := |before|;
    if pos + BLOCK <= |data| {
      SliceShift(before, data, pos, pos + BLOCK);
      match read(data[pos..pos + BLOCK])
      case Describes(head) =>
        var from := pos + BLOCK;
        var next := from + head.size + Pad(head.size);
        SliceShift(before, data, from, Min(from + head.size, |data|));
        assert k + Min(from + head.size, |data|) == Min(k + from + head.size, |whole|);
        if next <= |data| {
          CutShift(read, before, data, corrupt, next);
        }
      case _ =>
    }
  }

  /** The first member of a stream is cut off whole. */
  lemma CutMember(read: Reader, m: Member, rest: seq<byte>, corrupt: bool)
    requires Laid(m) && Recognizes(read, m)
    ensures Cut(read, MemberBytes(m) + rest, corrupt, 0)
         == Entry(HeadOf(m), m.body, None, Cut(read, rest, corrupt, 0))
  {
    BlockFields(m);
    CutFirst(read, HeaderBlock(m), HeadOf(m), m.body, m.padding, rest, corrupt);
  }

  lemma CutFirst(read: Reader, block: seq<byte>, head: Header, body: seq<byte>, padding: seq<byte>,
                 rest: seq<byte>, corrupt: bool)
    requires |block| == BLOCK && read(block) == Describes(head)
    requires head.size == |body| && |padding| == Pad(|body|)
    ensures Cut(read, block + body + padding + rest, corrupt, 0)
         == Entry(head, body, None, Cut(read, rest, corrupt, 0))
  {
    var front := block + body + padding;
    FrontSlices(block, body, padding, rest);
    CutShift(read, front, rest, corrupt, 0);
    CutUnfold(read, front + rest, corrupt, head, body);
  }

  lemma Slices(a: seq<byte>, b: seq<byte>, c: seq<byte>)
    ensures (a + b + c)[0..|a|] == a && (a + b + c)[|a|..|a| + |b|] == b
  {
  }

  lemma FrontSlices(block: seq<byte>, body: seq<byte>, padding: seq<byte>, rest: seq<byte>)
    ensures var data := block + body + padding + rest;
            data[0..|block|] == block && data[|block|..|block| + |body|] == body
  {
    Slices(block, body, padding + rest);
    assert block + body + padding + rest == block + body + (padding + rest);
  }

  lemma CutUnfold(read: Reader, data: seq<byte>, corrupt: bool, head: Header, body: seq<byte>)
    requires BLOCK + head.size + Pad(head.size) <= |data|
    requires read(data[0..BLOCK]) == Describes(head) && data[BLOCK..BLOCK + head.size] == body
    ensures Cut(read, data, corrupt, 0)
         == Entry(head, body, None, Cut(read, data, corrupt, BLOCK + head.size + Pad(head.size)))
  {
  }

  // ---- a tree to write ---------------------------------------------------------------

  datatype Item = FileItem(path: Path, bytes: seq<byte>) | DirItem(path: Path)

  /** An item, the name that leads to it, and its spelling: the ustar fields of
      its own header, or a preceding GNU long name or pax record. */
  datatype Plan = Plan(item: Item, name: string, meta: Option<Member>, own: Member)

  /** The name a plan's headers spell. */
  predicate Says(p: Plan) {
    match p.meta
    case None => ResolveName(None, CStr(p.own.raw), CStr(p.own.prefix)) == p.name
    case Some(m) => Laid(m) && Announces(m, p.name)
  }

  predicate Announces(m: Member, name: string) {
    && |m.body| <= MAX_META_BYTES
    && (|| (m.flag == LONG_NAME && TrimNuls(DecodeLossy(m.body)) == name)
        || (m.flag == PAX && PaxPath(m.body) == Some(name)))
  }

  predicate Planned(p: Plan) { Laid(p.own) && Says(p) && Means(p.item, p.name, p.own.flag, p.own.body) }

  /** An entry with this name, flag and body is the item. */
  predicate Means(item: Item, name: string, flag: byte, body: seq<byte>) {
    && item.path != [] && Resolve(name) == Ok(item.path) && !HasNul(item.path)
    && match item
       case FileItem(_, bytes) => IsFileFlag(flag) && body == bytes && |bytes| <= MAX_FILE_BYTES
       case DirItem(_) => flag == DIRECTORY && body == []
  }

  function PlanBytes(p: Plan): seq<byte> {
    if p.meta.Some? then MemberBytes(p.meta.value) + MemberBytes(p.own) else MemberBytes(p.own)
  }

  function StreamBytes(plans: seq<Plan>): seq<byte> {
    if plans == [] then [] else PlanBytes(plans[0]) + StreamBytes(plans[1..])
  }

  /** What a plan costs of the budget. */
  function PlanCost(p: Plan): nat {
    (if p.meta.Some? then |p.meta.value.body| else 0) + OwnCost(p)
  }

  function StreamCost(plans: seq<Plan>): nat {
    if plans == [] then 0 else PlanCost(plans[0]) + StreamCost(plans[1..])
  }

  function Items(plans: seq<Plan>): seq<Item> { seq(|plans|, i requires 0 <= i < |plans| => plans[i].item) }

  /** No file is another item or above one. */
  predicate PrefixFree(items: seq<Item>) {
    forall i, j :: 0 <= i < |items| && 0 <= j < |items| && i != j && items[i].FileItem? ==>
      !(items[i].path <= items[j].path)
  }

  /** The items and everything above them. */
  function AllPaths(items: seq<Item>): set<Path> {
    if items == [] then {[]} else AllPaths(items[..|items| - 1]) + Prefixes(items[|items| - 1].path)
  }

  /** The file at a path, or a directory. */
  function NodeOf(items: seq<Item>, p: Path): Node {
    if items == [] then Dir
    else
      var last := items[|items| - 1];
      if last.FileItem? && last.path == p then File(last.bytes) else NodeOf(items[..|items| - 1], p)
  }

  /** The tree that was written. */
  function Expected(items: seq<Item>): Tree { map p | p in AllPaths(items) :: NodeOf(items, p) }

  /** The written tree holds every file with its bytes, every directory item, the
      directories above them, and nothing else. */
  lemma ExpectedMeaning(items: seq<Item>)
    requires PrefixFree(items)
    ensures var t := Expected(items);
            && (forall p :: p in t <==> p == [] || exists i :: 0 <= i < |items| && p <= items[i].path)
            && (forall i :: 0 <= i < |items| && items[i].FileItem? ==>
                  t[items[i].path] == File(items[i].bytes))
            && (forall p :: p in t && t[p] != Dir ==>
                  t[p].File? && exists i :: 0 <= i < |items| && items[i] == FileItem(p, t[p].bytes))
  {
    forall p
      ensures p in Expected(items) <==> p == [] || exists i :: 0 <= i < |items| && p <= items[i].path
    {
      PathsMeaning(items, p);
    }
    forall i | 0 <= i < |items| && items[i].FileItem?
      ensures NodeOf(items, items[i].path) == File(items[i].bytes)
    {
      NodeOfFile(items, i);
    }
    forall p | p in Expected(items) && Expected(items)[p] != Dir
      ensures Expected(items)[p].File?
      ensures exists i :: 0 <= i < |items| && items[i] == FileItem(p, Expected(items)[p].bytes)
    {
      var i := FileBehind(items, p);
    }
  }

  lemma {:induction false} PathsMeaning(items: seq<Item>, p: Path)
    ensures p in AllPaths(items) <==> p == [] || exists i :: 0 <= i < |items| && p <= items[i].path
  {
    if items != [] {
      var front, last := items[..|items| - 1], items[|items| - 1];
      PathsMeaning(front, p);
      assert p in Prefixes(last.path) <==> p <= last.path by {
        assert p <= last.path ==> p == last.path[..|p|];
      }
      assert forall i :: 0 <= i < |front| ==> front[i] == items[i];
    }
  }

  lemma {:induction false} NodeOfFile(items: seq<Item>, i: nat)
    requires PrefixFree(items) && i < |items| && items[i].FileItem?
    ensures NodeOf(items, items[i].path) == File(items[i].bytes)
  {
    var front := items[..|items| - 1];
    if i < |front| {
      assert PrefixFree(front);
      NodeOfFile(front, i);
      assert items[|items| - 1].path != items[i].path;
    }
  }

  lemma {:induction false} FileBehind(items: seq<Item>, p: Path) returns (i: nat)
    requires NodeOf(items, p) != Dir
    ensures i < |items| && NodeOf(items, p).File? && items[i] == FileItem(p, NodeOf(items, p).bytes)
  {
    var last := items[|items| - 1];
    if last.FileItem? && last.path == p {
      i := |items| - 1;
    } else {
      i := FileBehind(items[..|items| - 1], p);
    }
  }

  // ---- extracting it ------------------------------------------------------------------

  lemma NoFileAbove(done: seq<Item>, x: Item, p: Path)
    requires PrefixFree(done + [x]) && p <= x.path
    ensures NodeOf(done, p) == Dir
  {
    var all := done + [x];
    assert all[|done|] == x;
    forall i | 0 <= i < |done| && done[i].FileItem?
      ensures done[i].path != p
    {
      assert all[i] == done[i] && !(all[i].path <= x.path);
    }
    if NodeOf(done, p) != Dir {
      var i := FileBehind(done, p);
    }
  }

  lemma OutsideIsDir(items: seq<Item>, p: Path)
    requires p !in AllPaths(items)
    ensures NodeOf(items, p) == Dir
  {
    PathsMeaning(items, p);
    if NodeOf(items, p) != Dir {
      var i := FileBehind(items, p);
    }
  }

  /** Making the directories of one more path. */
  lemma DirsOneMore(done: seq<Item>, x: Item, path: Path)
    requires PrefixFree(done + [x]) && path <= x.path && !HasNul(path)
    ensures var r := MakeDirs(Expected(done), path);
            && r.Ok? && r.value.Keys == AllPaths(done) + Prefixes(path)
            && forall p :: p in r.value ==> r.value[p] == NodeOf(done, p)
  {
    var t := Expected(done);
    forall i | 0 <= i <= |path| && path[..i] in t
      ensures IsDir(t, path[..i])
    {
      NoFileAbove(done, x, path[..i]);
    }
    forall p | p !in AllPaths(done)
      ensures NodeOf(done, p) == Dir
    {
      OutsideIsDir(done, p);
    }
  }

  lemma ExpectedOneMore(done: seq<Item>, x: Item)
    ensures AllPaths(done + [x]) == AllPaths(done) + Prefixes(x.path)
    ensures forall p :: NodeOf(done + [x], p)
                     == if x.FileItem? && x.path == p then File(x.bytes) else NodeOf(done, p)
  {
    assert (done + [x])[..|done|] == done;
  }

  lemma SameTree(t: Tree, u: Tree)
    requires t.Keys == u.Keys && forall p :: p in t ==> t[p] == u[p]
    ensures t == u
  {
  }

  lemma DirItemAdded(done: seq<Item>, x: Item)
    requires PrefixFree(done + [x]) && x.DirItem? && !HasNul(x.path)
    ensures MakeDirs(Expected(done), x.path) == Ok(Expected(done + [x]))
  {
    DirsOneMore(done, x, x.path);
    ExpectedOneMore(done, x);
    SameTree(MakeDirs(Expected(done), x.path).value, Expected(done + [x]));
  }

  lemma NotThereYet(done: seq<Item>, x: Item)
    requires PrefixFree(done + [x]) && x.FileItem? && x.path != []
    ensures x.path !in AllPaths(done)
  {
    var all := done + [x];
    assert all[|done|] == x && forall i :: 0 <= i < |done| ==> all[i] == done[i];
    PathsMeaning(done, x.path);
  }

  lemma FileItemAdded(done: seq<Item>, x: Item)
    requires PrefixFree(done + [x]) && x.FileItem? && x.path != [] && !HasNul(x.path)
    ensures var u := Open(Expected(done), x.path);
            u.result.Ok? && u.tree[x.path := File(x.bytes)] == Expected(done + [x])
  {
    var above := Parent(x.path);
    assert !HasNul(above);
    DirsOneMore(done, x, above);
    var ready := MakeDirs(Expected(done), above).value;
    assert IsDir(ready, above) by {
      assert above == above[..|above|];
      NoFileAbove(done, x, above);
    }
    NotThereYet(done, x);
    assert x.path !in Prefixes(above);
    var u := ready[x.path := File([])];
    assert CreateFile(ready, x.path) == Ok(u);
    FileOnTop(done, x, ready);
    assert u[x.path := File(x.bytes)] == ready[x.path := File(x.bytes)];
  }

  lemma FileOnTop(done: seq<Item>, x: Item, ready: Tree)
    requires x.FileItem? && x.path != [] && ready.Keys == AllPaths(done) + Prefixes(Parent(x.path))
    requires forall p :: p in ready ==> ready[p] == NodeOf(done, p)
    ensures ready[x.path := File(x.bytes)] == Expected(done + [x])
  {
    PrefixesOfChild(x.path);
    ExpectedOneMore(done, x);
    SameTree(ready[x.path := File(x.bytes)], Expected(done + [x]));
  }

  lemma PrefixesOfChild(p: Path)
    requires p != []
    ensures Prefixes(p) == Prefixes(Parent(p)) + {p}
  {
    forall i | 0 <= i <= |p|
      ensures p[..i] in Prefixes(Parent(p)) + {p}
    {
      if i < |p| {
        assert p[..i] == Parent(p)[..i];
      } else {
        assert p[..i] == p;
      }
    }
    forall i | 0 <= i <= |Parent(p)|
      ensures Parent(p)[..i] in Prefixes(p)
    {
      assert Parent(p)[..i] == p[..i];
    }
    assert p == p[..|p|];
  }

  /** The entry a member is cut into. */
  function EntryOf(m: Member, rest: Archive): Archive { Entry(HeadOf(m), m.body, None, rest) }

  /** The state after the name of a plan was announced. */
  function Named(p: Plan, s: State): State {
    if p.meta.None? then s
    else s.(pending := Some(p.name), total := s.total + |p.meta.value.body|)
  }

  function OwnCost(p: Plan): nat { ItemCost(p.item) }

  /** The state after an item was added. */
  function Added(p: Plan, done: seq<Item>, s: State): State {
    State(None, s.count + 1, s.total + OwnCost(p), Expected(done + [p.item]))
  }

  lemma LongNameApplies(e: Archive, s: State)
    requires e.Entry? && e.cut.None? && e.head.flag == LONG_NAME && |e.body| == e.head.size <= MAX_META_BYTES
    requires s.total + |e.body| <= MAX_TOTAL_BYTES
    ensures Apply(e, s) == Go(s.(total := s.total + |e.body|, pending := Some(TrimNuls(DecodeLossy(e.body)))))
  {
  }

  lemma PaxApplies(e: Archive, s: State)
    requires e.Entry? && e.cut.None? && e.head.flag == PAX && |e.body| == e.head.size <= MAX_META_BYTES
    requires s.total + |e.body| <= MAX_TOTAL_BYTES && PaxPath(e.body).Some?
    ensures Apply(e, s) == Go(s.(total := s.total + |e.body|, pending := PaxPath(e.body)))
  {
  }

  lemma ApplyMeta(m: Member, name: string, rest: Archive, s: State)
    requires Announces(m, name) && s.total + |m.body| <= MAX_TOTAL_BYTES
    ensures Apply(EntryOf(m, rest), s) == Go(s.(pending := Some(name), total := s.total + |m.body|))
  {
    if m.flag == LONG_NAME {
      LongNameApplies(EntryOf(m, rest), s);
    } else {
      PaxApplies(EntryOf(m, rest), s);
    }
  }

  lemma FileFlagApplies(e: Archive, s: State)
    requires e.Entry? && IsFileFlag(e.head.flag)
    ensures Apply(e, s) == ApplyFile(Admitted(e, s), e, s)
  {
  }

  lemma DirFlagApplies(e: Archive, s: State)
    requires e.Entry? && e.head.flag == DIRECTORY
    ensures Apply(e, s) == ApplyDir(e, s)
  {
  }

  /** A file that can be opened and is whole is stored. */
  lemma OpenedFileIsStored(path: Path, e: Archive, s: State)
    requires e.Entry? && e.cut.None? && e.head.size == |e.body|
    requires Open(s.tree, path).result.Ok? && s.total + 2 * |e.body| <= MAX_TOTAL_BYTES
    ensures ApplyFile(Ok(path), e, s)
         == Go(State(None, s.count + 1, s.total + 2 * |e.body|, Open(s.tree, path).tree[path := File(e.body)]))
  {
  }

  lemma FileEntryAdds(e: Archive, done: seq<Item>, x: Item, s: State)
    requires e.Entry? && e.cut.None? && IsFileFlag(e.head.flag)
    requires x.FileItem? && e.body == x.bytes && e.head.size == |x.bytes|
    requires Admitted(e, s) == Ok(x.path) && x.path != [] && !HasNul(x.path)
    requires PrefixFree(done + [x]) && s.tree == Expected(done)
    requires s.total + 2 * |x.bytes| <= MAX_TOTAL_BYTES
    ensures Apply(e, s) == Go(State(None, s.count + 1, s.total + 2 * |x.bytes|, Expected(done + [x])))
  {
    FileFlagApplies(e, s);
    FileItemAdded(done, x);
    OpenedFileIsStored(x.path, e, s);
  }

  lemma DirEntryAdds(e: Archive, done: seq<Item>, x: Item, s: State)
    requires e.Entry? && e.cut.None? && e.head.flag == DIRECTORY && e.body == [] && e.head.size == 0
    requires x.DirItem? && Resolve(EntryName(e, s)) == Ok(x.path) && x.path != [] && !HasNul(x.path)
    requires PrefixFree(done + [x]) && s.tree == Expected(done)
    requires s.count < MAX_FILE_COUNT && s.total <= MAX_TOTAL_BYTES
    ensures Apply(e, s) == Go(State(None, s.count + 1, s.total, Expected(done + [x])))
  {
    DirFlagApplies(e, s);
    DirItemAdded(done, x);
  }

  lemma OwnName(p: Plan, rest: Archive, s: State)
    requires Planned(p) && s.pending == if p.meta.Some? then Some(p.name) else None
    ensures EntryName(EntryOf(p.own, rest), s) == p.name
  {
  }

  function ItemCost(item: Item): nat { if item.FileItem? then 2 * |item.bytes| else 0 }

  lemma MeansAdmitted(e: Archive, item: Item, name: string, s: State)
    requires e.Entry? && e.head.size == |e.body| && EntryName(e, s) == name && item.FileItem?
    requires Means(item, name, e.head.flag, e.body)
    requires s.count < MAX_FILE_COUNT && s.total + ItemCost(item) <= MAX_TOTAL_BYTES
    ensures Admitted(e, s) == Ok(item.path)
  {
  }

  /** An entry that means an item adds it. */
  lemma ApplyItem(e: Archive, item: Item, name: string, done: seq<Item>, s: State)
    requires e.Entry? && e.cut.None? && e.head.size == |e.body| && EntryName(e, s) == name
    requires Means(item, name, e.head.flag, e.body) && PrefixFree(done + [item]) && s.tree == Expected(done)
    requires s.count < MAX_FILE_COUNT && s.total + ItemCost(item) <= MAX_TOTAL_BYTES
    ensures Apply(e, s) == Go(State(None, s.count + 1, s.total + ItemCost(item), Expected(done + [item])))
  {
    if item.FileItem? {
      MeansAdmitted(e, item, name, s);
      FileEntryAdds(e, done, item, s);
    } else {
      DirEntryAdds(e, done, item, s);
    }
  }

  /** A planned item's own entry adds the item. */
  lemma ApplyOwn(p: Plan, rest: Archive, done: seq<Item>, s: State)
    requires Planned(p) && PrefixFree(done + [p.item]) && s.tree == Expected(done)
    requires s.pending == if p.meta.Some? then Some(p.name) else None
    requires s.count < MAX_FILE_COUNT && s.total + OwnCost(p) <= MAX_TOTAL_BYTES
    ensures Apply(EntryOf(p.own, rest), s) == Go(Added(p, done, s))
  {
    OwnName(p, rest, s);
    ApplyItem(EntryOf(p.own, rest), p.item, p.name, done, s);
  }

  /** The ways a stream may end: at end of file, or with a zero block and anything
      after it. */
  predicate Closes(ending: seq<byte>, corrupt: bool) {
    (ending == [] && !corrupt) || (|ending| >= BLOCK && AllZero(ending[0..BLOCK]))
  }

  lemma ItemsOfCons(p: Plan, rest: seq<Plan>, done: seq<Item>)
    ensures done + Items([p] + rest) == done + [p.item] + Items(rest)
  {
    assert Items([p] + rest) == [p.item] + Items(rest);
  }

  lemma ReplayMember(read: Reader, m: Member, tail: seq<byte>, corrupt: bool, s: State, next: State)
    requires Laid(m) && Recognizes(read, m) && Apply(EntryOf(m, Cut(read, tail, corrupt, 0)), s) == Go(next)
    ensures Replay(Cut(read, MemberBytes(m) + tail, corrupt, 0), s) == Replay(Cut(read, tail, corrupt, 0), next)
  {
    CutMember(read, m, tail, corrupt);
    ReplayStep(EntryOf(m, Cut(read, tail, corrupt, 0)), s, next);
  }

  lemma ReplayMeta(read: Reader, m: Member, name: string, tail: seq<byte>, corrupt: bool, s: State)
    requires Laid(m) && Recognizes(read, m) && Announces(m, name) && s.total + |m.body| <= MAX_TOTAL_BYTES
    ensures Replay(Cut(read, MemberBytes(m) + tail, corrupt, 0), s)
         == Replay(Cut(read, tail, corrupt, 0), s.(pending := Some(name), total := s.total + |m.body|))
  {
    ApplyMeta(m, name, Cut(read, tail, corrupt, 0), s);
    ReplayMember(read, m, tail, corrupt, s, s.(pending := Some(name), total := s.total + |m.body|));
  }

  lemma ReplayOwn(read: Reader, p: Plan, tail: seq<byte>, corrupt: bool, done: seq<Item>, s: State)
    requires Planned(p) && Recognizes(read, p.own) && PrefixFree(done + [p.item]) && s.tree == Expected(done)
    requires s.pending == if p.meta.Some? then Some(p.name) else None
    requires s.count < MAX_FILE_COUNT && s.total + OwnCost(p) <= MAX_TOTAL_BYTES
    ensures Replay(Cut(read, MemberBytes(p.own) + tail, corrupt, 0), s)
         == Replay(Cut(read, tail, corrupt, 0), Added(p, done, s))
  {
    ApplyOwn(p, Cut(read, tail, corrupt, 0), done, s);
    ReplayMember(read, p.own, tail, corrupt, s, Added(p, done, s));
  }

  predicate RecognizesPlan(read: Reader, p: Plan) {
    Recognizes(read, p.own) && (p.meta.Some? ==> Recognizes(read, p.meta.value))
  }

  /** A plan whose name is announced by a member before its own. */
  lemma ReplayAnnounced(read: Reader, m: Member, name: string, own: seq<byte>, tail: seq<byte>, corrupt: bool, s: State,
                        named: State)
    requires Laid(m) && Recognizes(read, m) && Announces(m, name) && s.total + |m.body| <= MAX_TOTAL_BYTES
    requires named == s.(pending := Some(name), total := s.total + |m.body|)
    ensures Replay(Cut(read, MemberBytes(m) + own + tail, corrupt, 0), s) == Replay(Cut(read, own + tail, corrupt, 0), named)
  {
    assert MemberBytes(m) + own + tail == MemberBytes(m) + (own + tail);
    ReplayMeta(read, m, name, own + tail, corrupt, s);
  }

  /** One plan's bytes at the front of a stream: replaying them adds its item. */
  lemma ReplayPlan(read: Reader, p: Plan, tail: seq<byte>, corrupt: bool, done: seq<Item>, s: State)
    requires Planned(p) && RecognizesPlan(read, p) && PrefixFree(done + [p.item])
    requires s.tree == Expected(done) && s.pending.None? && s.count < MAX_FILE_COUNT
    requires s.total + PlanCost(p) <= MAX_TOTAL_BYTES
    ensures Replay(Cut(read, PlanBytes(p) + tail, corrupt, 0), s)
         == Replay(Cut(read, tail, corrupt, 0), Added(p, done, Named(p, s)))
  {
    ReplayOwn(read, p, tail, corrupt, done, Named(p, s));
    if p.meta.Some? {
      ReplayAnnounced(read, p.meta.value, p.name, MemberBytes(p.own), tail, corrupt, s, Named(p, s));
    }
  }

  lemma {:induction false} ReplayStream(read: Reader, plans: seq<Plan>, ending: seq<byte>, corrupt: bool, done: seq<Item>,
                                        s: State)
    requires forall p :: p in plans ==> Planned(p) && RecognizesPlan(read, p)
    requires PrefixFree(done + Items(plans))
    requires s.tree == Expected(done) && s.pending.None? && s.count + |plans| <= MAX_FILE_COUNT
    requires s.total + StreamCost(plans) <= MAX_TOTAL_BYTES
    requires Cut(read, ending, corrupt, 0) == End
    ensures Replay(Cut(read, StreamBytes(plans) + ending, corrupt, 0), s) == Ended(Ok(()), Expected(done + Items(plans)))
    decreases |plans|
  {
    if plans == [] {
      assert StreamBytes(plans) + ending == ending;
      assert done + Items(plans) == done;
    } else {
      var p, rest := plans[0], plans[1..];
      assert plans == [p] + rest;
      ItemsOfCons(p, rest, done);
      var all := done + [p.item] + Items(rest);
      assert PrefixFree(done + [p.item]) by {
        assert done + [p.item] == all[..|done| + 1];
      }
      var tail := StreamBytes(rest) + ending;
      assert StreamBytes(plans) + ending == PlanBytes(p) + tail;
      ReplayPlan(read, p, tail, corrupt, done, s);
      ReplayStream(read, rest, ending, corrupt, done + [p.item], Added(p, done, Named(p, s)));
    }
  }

  lemma PlanIsRecognized(p: Plan)
    requires Planned(p)
    ensures RecognizesPlan(ReadBlock, p)
  {
    MemberIsRead(p.own);
    if p.meta.Some? {
      MemberIsRead(p.meta.value);
    }
  }

  lemma EndingIsEnd(ending: seq<byte>, corrupt: bool)
    requires Closes(ending, corrupt)
    ensures Cut(ReadBlock, ending, corrupt, 0) == End
  {
  }

  /** The round trip: writing any prefix-free items within the caps, each name in
      any spelling, and extracting the stream gives exactly those items back. */
  lemma RoundTrip(plans: seq<Plan>, ending: seq<byte>, corrupt: bool)
    requires (forall p :: p in plans ==> Planned(p)) && PrefixFree(Items(plans)) && Closes(ending, corrupt)
    requires |plans| <= MAX_FILE_COUNT && StreamCost(plans) <= MAX_TOTAL_BYTES
    ensures Replay(Cut(ReadBlock, StreamBytes(plans) + ending, corrupt, 0), Start(EMPTY))
         == Ended(Ok(()), Expected(Items(plans)))
  {
    assert Expected([]) == EMPTY;
    assert [] + Items(plans) == Items(plans);
    EndingIsEnd(ending, corrupt);
    forall p | p in plans
      ensures RecognizesPlan(ReadBlock, p)
    {
      PlanIsRecognized(p);
    }
    ReplayStream(ReadBlock, plans, ending, corrupt, [], Start(EMPTY));
  }

  // ---- spelling names ------------------------------------------------------------------

  function Zeros(n: nat): (z: seq<byte>)
    ensures |z| == n && AllZero(z)
  {
    seq(n, _ => 0)
  }

  lemma {:induction false} DecodeConcatZeros(s: string, k: nat)
    ensures DecodeLossy(Encode(s) + Zeros(k)) == s + seq(k, _ => '\0')
  {
    if s != [] {
      var n := |EncodeChar(s[0])|;
      var bs := Encode(s) + Zeros(k);
      assert bs == EncodeChar(s[0]) + (Encode(s[1..]) + Zeros(k));
      DecodeOfEncodeChar(s[0], Encode(s[1..]) + Zeros(k));
      assert bs[n..] == Encode(s[1..]) + Zeros(k);
      DecodeConcatZeros(s[1..], k);
    } else {
      DecodeZeros(k);
      assert Encode(s) + Zeros(k) == Zeros(k);
    }
  }

  lemma {:induction false} DecodeZeros(k: nat)
    ensures DecodeLossy(Zeros(k)) == seq(k, _ => '\0')
  {
    if k > 0 {
      assert Zeros(k)[1..] == Zeros(k - 1);
      DecodeZeros(k - 1);
    }
  }

  lemma {:induction false} TrimAddedNuls(s: string, k: nat)
    requires s == [] || s[|s| - 1] != '\0'
    ensures TrimNuls(s + seq(k, _ => '\0')) == s
  {
    var t := s + seq(k, _ => '\0');
    if k > 0 {
      assert t[..|t| - 1] == s + seq(k - 1, _ => '\0');
      TrimAddedNuls(s, k - 1);
    } else {
      assert t == s;
    }
  }

  /** A GNU long name is read back, however many NULs follow it, unless the name
      itself ends in one. */
  lemma LongNameSays(name: string, k: nat)
    requires name == [] || name[|name| - 1] != '\0'
    ensures TrimNuls(DecodeLossy(Encode(name) + Zeros(k))) == name
  {
    DecodeConcatZeros(name, k);
    TrimAddedNuls(name, k);
  }

  /** A pax `path` record, first in its header, is read back for any name without
      a line feed. */
  lemma PaxRecordSays(length: string, name: string, more: string)
    requires ' ' !in length && '\n' !in length && '\n' !in name
    ensures PaxPath(Encode(length + " path=" + name + "\n" + more)) == Some(name)
  {
    var line := length + " path=" + name;
    DecodeOfEncode(line + "\n" + more);
    SplitConcat(line, more, '\n');
    SplitWhole(line, '\n');
    assert line == length + [' '] + ("path=" + name);
    SplitOnceAt(length, "path=" + name, ' ');
    assert ("path=" + name)[5..] == name;
  }

  /** A ustar name field: the text and NULs. */
  function NameField(name: string, width: nat): (f: seq<byte>)
    requires |Encode(name)| <= width
    ensures |f| == width
  {
    Encode(name) + Zeros(width - |Encode(name)|)
  }

  lemma FieldSays(name: string, width: nat)
    requires |Encode(name)| <= width && Trimmed(name) && '\0' !in name
    ensures CStr(NameField(name, width)) == name
  {
    AsciiInEncode(name, '\0');
    var text := Encode(name);
    var k := width - |text|;
    if k > 0 {
      assert NameField(name, width) == text + [0] + Zeros(k - 1);
      SplitOnceAt(text, Zeros(k - 1), 0);
    } else {
      assert NameField(name, width) == text;
    }
    DecodeOfEncode(name);
    assert Trim(name) == name;
  }

  lemma {:induction false} TrimEndShape(s: string)
    ensures var t := TrimEnd(s);
            t <= s && (t != [] ==> !IsSpace(t[|t| - 1]))
  {
    if s != [] && IsSpace(s[|s| - 1]) {
      TrimEndShape(s[..|s| - 1]);
    }
  }

  lemma {:induction false} TrimStartShape(s: string)
    ensures var t := TrimStart(s);
            (t != [] ==> !IsSpace(t[0])) && forall c :: c in t ==> c in s
  {
    if s != [] && IsSpace(s[0]) {
      TrimStartShape(s[1..]);
    }
  }

  lemma ContinueAbove(bs: seq<byte>, need: nat, i: nat, n: int)
    requires 1 <= i <= |bs| && n > 0 && need <= 3
    ensures Continue(bs, need, i, n).0 != '\0'
    decreases need
  {
    if need > 0 && i < |bs| && Fits(bs[0], i, bs[i]) {
      ContinueAbove(bs, need - 1, i + 1, Shift6(n, bs[i]));
    }
  }

  /** Bytes without NUL never decode to NUL: no character has a longer spelling. */
  lemma {:induction false} NoNulDecoded(bs: seq<byte>)
    requires 0 !in bs
    ensures '\0' !in DecodeLossy(bs)
  {
    if bs != [] {
      var (c, n) := DecodeChar(bs);
      assert c != '\0' by {
        if bs[0] >= 0x80 && Needs(bs[0]) > 0 {
          var need := Needs(bs[0]);
          var lead := bs[0] as int - Lead(need);
          if lead > 0 {
            ContinueAbove(bs, need, 1, lead);
          } else if |bs| > 1 && Fits(bs[0], 1, bs[1]) {
            assert Continue(bs, need, 1, lead) == Continue(bs, need - 1, 2, Shift6(lead, bs[1]));
            ContinueAbove(bs, need - 1, 2, Shift6(lead, bs[1]));
          }
        }
      }
      NoNulDecoded(bs[n..]);
    }
  }

  lemma CStrShape(field: seq<byte>)
    ensures Trimmed(CStr(field)) && '\0' !in CStr(field)
  {
    var text := match SplitOnce(field, 0) case Some((before, _)) => before case None => field;
    NoNulDecoded(text);
    var s := DecodeLossy(text);
    TrimStartShape(s);
    TrimEndShape(TrimStart(s));
  }

  /** A name that fits a field can be spelled there exactly when it has no outer
      white space and no NUL, because the reader trims fields. */
  lemma FieldSpells(name: string, width: nat)
    requires |Encode(name)| <= width
    ensures (exists field: seq<byte> :: |field| == width && CStr(field) == name)
       <==> Trimmed(name) && '\0' !in name
  {
    if Trimmed(name) && '\0' !in name {
      FieldSays(name, width);
      assert |NameField(name, width)| == width;
    }
    forall field: seq<byte> | |field| == width && CStr(field) == name
      ensures Trimmed(name) && '\0' !in name
    {
      CStrShape(field);
    }
  }

  // ---- a writer ----------------------------------------------------------------------------

  predicate FrameFits(f: Frame) {
    |f.mode| == 24 && |f.check| == 20 && |f.link| == 188 && |f.tail| == 12
  }

  /** A size field of eleven octal digits, or as wide in base-256. */
  const SIZE_DIGITS: nat := 11

  function SizeField(binary: bool, n: nat): seq<byte> {
    if binary then Base256Field(n, SIZE_DIGITS) else OctalField(n, SIZE_DIGITS)
  }

  function Record(raw: seq<byte>, size: seq<byte>, flag: byte, prefix: seq<byte>, frame: Frame, body: seq<byte>): Member {
    Member(raw, size, flag, prefix, frame, body, Zeros(Pad(|body|)))
  }

  lemma FlagIsNotZero(m: Member)
    requires m.flag != 0
    ensures !AllZero(HeaderBlock(m))
  {
    var after := m.frame.link + (m.prefix + m.frame.tail);
    var rest := m.size + (m.frame.check + ([m.flag] + after));
    assert m.flag in [m.flag] + after;
    assert m.flag in m.frame.check + ([m.flag] + after);
    assert m.flag in rest;
    assert m.flag in m.frame.mode + rest;
    assert m.flag in HeaderBlock(m);
  }

  /** Either size spelling is read back; octal reaches 8 GiB. */
  lemma SizeFieldSays(binary: bool, n: nat)
    requires n < if binary then U64 else 0x2_0000_0000
    ensures |SizeField(binary, n)| == 12 && SizeOf(SizeField(binary, n)) == Some(n)
  {
    FieldReach();
    SizeOfWritten(n, SIZE_DIGITS);
  }

  lemma RecordIsLaid(raw: seq<byte>, size: seq<byte>, flag: byte, prefix: seq<byte>, frame: Frame, body: seq<byte>)
    requires |raw| == 100 && |prefix| == 155 && FrameFits(frame) && flag != 0
    requires |size| == 12 && SizeOf(size) == Some(|body|)
    ensures Laid(Record(raw, size, flag, prefix, frame, body))
  {
    FlagIsNotZero(Record(raw, size, flag, prefix, frame, body));
  }

  function BodyOf(item: Item): seq<byte> { if item.FileItem? then item.bytes else [] }

  function FlagOf(item: Item): byte { if item.FileItem? then 0x30 else DIRECTORY }

  /** How a writer spells a name: in the name field, in the prefix and name fields,
      in a GNU long name with NULs after it, or in a pax header whose first record
      is the path (`length` is that record's decimal length). The last two leave
      the name fields of the item's own header to hold anything. */
  datatype Spelling =
    | Ustar
    | Prefixed(before: string, after: string)
    | Gnu(nuls: nat, raw: seq<byte>, prefix: seq<byte>)
    | Pax(length: string, more: string, raw: seq<byte>, prefix: seq<byte>)

  /** An item, the name it goes by, and how name and size are spelled. */
  datatype Choice = Choice(item: Item, name: string, spelling: Spelling, binary: bool, frame: Frame)

  /** The body of a pax header that names `name`, with any further records. */
  function PaxBody(length: string, name: string, more: string): seq<byte> {
    Encode(length + " path=" + name + "\n" + more)
  }

  function LongBody(name: string, nuls: nat): seq<byte> { Encode(name) + Zeros(nuls) }

  /** What a spelling can say: a header field holds a trimmed text without NUL, a
      long name does not end in one, a pax value has no line feed. */
  predicate Spells(s: Spelling, name: string) {
    match s
    case Ustar => FieldHolds(name, 100)
    case Prefixed(before, after) =>
      before != "" && name == before + "/" + after && FieldHolds(before, 155) && FieldHolds(after, 100)
    case Gnu(nuls, raw, prefix) =>
      && |raw| == 100 && |prefix| == 155 && |LongBody(name, nuls)| <= MAX_META_BYTES
      && (name == "" || name[|name| - 1] != '\0')
    case Pax(length, more, raw, prefix) =>
      && |raw| == 100 && |prefix| == 155 && |PaxBody(length, name, more)| <= MAX_META_BYTES
      && ' ' !in length && '\n' !in length && '\n' !in name
  }

  predicate FieldHolds(text: string, width: nat) {
    |Encode(text)| <= width && Trimmed(text) && '\0' !in text
  }

  /** The name leads to the item's path, the caps are met, and the spelling can
      say the name. */
  predicate Spellable(c: Choice) {
    && c.item.path != [] && Resolve(c.name) == Ok(c.item.path) && !HasNul(c.item.path)
    && |BodyOf(c.item)| <= MAX_FILE_BYTES && FrameFits(c.frame) && Spells(c.spelling, c.name)
  }

  function OwnRecord(c: Choice, raw: seq<byte>, prefix: seq<byte>): Member {
    Record(raw, SizeField(c.binary, |BodyOf(c.item)|), FlagOf(c.item), prefix, c.frame, BodyOf(c.item))
  }

  function MetaRecord(c: Choice, flag: byte, body: seq<byte>, raw: seq<byte>, prefix: seq<byte>): Member {
    Record(raw, SizeField(c.binary, |body|), flag, prefix, c.frame, body)
  }

  /** The headers and bodies a choice puts on the stream. */
  function Spelled(c: Choice): Plan
    requires Spellable(c)
  {
    match c.spelling
    case Ustar => Plan(c.item, c.name, None, OwnRecord(c, NameField(c.name, 100), NameField("", 155)))
    case Prefixed(before, after) =>
      Plan(c.item, c.name, None, OwnRecord(c, NameField(after, 100), NameField(before, 155)))
    case Gnu(nuls, raw, prefix) =>
      Plan(c.item, c.name, Some(MetaRecord(c, LONG_NAME, LongBody(c.name, nuls), raw, prefix)),
           OwnRecord(c, raw, prefix))
    case Pax(length, more, raw, prefix) =>
      Plan(c.item, c.name, Some(MetaRecord(c, PAX, PaxBody(length, c.name, more), raw, prefix)),
           OwnRecord(c, raw, prefix))
  }

  lemma OwnIsLaid(c: Choice, raw: seq<byte>, prefix: seq<byte>)
    requires Spellable(c) && |raw| == 100 && |prefix| == 155
    ensures Laid(OwnRecord(c, raw, prefix))
    ensures Means(c.item, c.name, FlagOf(c.item), BodyOf(c.item))
  {
    SizeFieldSays(c.binary, |BodyOf(c.item)|);
    RecordIsLaid(raw, SizeField(c.binary, |BodyOf(c.item)|), FlagOf(c.item), prefix, c.frame, BodyOf(c.item));
  }

  lemma MetaIsLaid(c: Choice, flag: byte, body: seq<byte>, raw: seq<byte>, prefix: seq<byte>)
    requires FrameFits(c.frame) && |raw| == 100 && |prefix| == 155
    requires flag != 0 && |body| <= MAX_META_BYTES
    ensures Laid(MetaRecord(c, flag, body, raw, prefix))
  {
    SizeFieldSays(c.binary, |body|);
    RecordIsLaid(raw, SizeField(c.binary, |body|), flag, prefix, c.frame, body);
  }

  lemma UstarPlanIsPlanned(c: Choice)
    requires Spellable(c) && c.spelling.Ustar?
    ensures Planned(Spelled(c))
  {
    OwnIsLaid(c, NameField(c.name, 100), NameField("", 155));
    FieldSays(c.name, 100);
    FieldSays("", 155);
  }

  lemma PrefixPlanIsPlanned(c: Choice)
    requires Spellable(c) && c.spelling.Prefixed?
    ensures Planned(Spelled(c))
  {
    OwnIsLaid(c, NameField(c.spelling.after, 100), NameField(c.spelling.before, 155));
    FieldSays(c.spelling.after, 100);
    FieldSays(c.spelling.before, 155);
  }

  /** A plan of two entries: the first announces the name, the second is the item. */
  lemma AnnouncedIsPlanned(p: Plan)
    requires p.meta.Some? && Laid(p.meta.value) && Announces(p.meta.value, p.name)
    requires Laid(p.own) && Means(p.item, p.name, p.own.flag, p.own.body)
    ensures Planned(p)
  {
  }

  lemma LongNameAnnounces(c: Choice, nuls: nat, raw: seq<byte>, prefix: seq<byte>)
    requires Spells(Gnu(nuls, raw, prefix), c.name)
    ensures Announces(MetaRecord(c, LONG_NAME, LongBody(c.name, nuls), raw, prefix), c.name)
  {
    LongNameSays(c.name, nuls);
  }

  lemma GnuPlanIsPlanned(c: Choice)
    requires Spellable(c) && c.spelling.Gnu?
    ensures Planned(Spelled(c))
  {
    OwnIsLaid(c, c.spelling.raw, c.spelling.prefix);
    MetaIsLaid(c, LONG_NAME, LongBody(c.name, c.spelling.nuls), c.spelling.raw, c.spelling.prefix);
    LongNameAnnounces(c, c.spelling.nuls, c.spelling.raw, c.spelling.prefix);
    AnnouncedIsPlanned(Spelled(c));
  }

  lemma PaxPlanIsPlanned(c: Choice)
    requires Spellable(c) && c.spelling.Pax?
    ensures Planned(Spelled(c))
  {
    OwnIsLaid(c, c.spelling.raw, c.spelling.prefix);
    MetaIsLaid(c, PAX, PaxBody(c.spelling.length, c.name, c.spelling.more), c.spelling.raw, c.spelling.prefix);
    PaxRecordSays(c.spelling.length, c.name, c.spelling.more);
  }

  /** Every spelling, with either size spelling, is read as what was meant. */
  lemma SpelledIsPlanned(c: Choice)
    requires Spellable(c)
    ensures Planned(Spelled(c))
  {
    match c.spelling
    case Ustar => UstarPlanIsPlanned(c);
    case Prefixed(_, _) => PrefixPlanIsPlanned(c);
    case Gnu(_, _, _) => GnuPlanIsPlanned(c);
    case Pax(_, _, _, _) => PaxPlanIsPlanned(c);
  }

  function AllSpelled(choices: seq<Choice>): seq<Plan>
    requires forall c :: c in choices ==> Spellable(c)
  {
    seq(|choices|, i requires 0 <= i < |choices| => Spelled(choices[i]))
  }

  function Chosen(choices: seq<Choice>): seq<Item> {
    seq(|choices|, i requires 0 <= i < |choices| => choices[i].item)
  }

  /** The round trip for a writer: any prefix-free items within the caps, each under
      a name that leads to it and in a spelling of its own, come back exactly. */
  lemma WrittenRoundTrip(choices: seq<Choice>, ending: seq<byte>, corrupt: bool)
    requires (forall c :: c in choices ==> Spellable(c)) && PrefixFree(Chosen(choices)) && Closes(ending, corrupt)
    requires |choices| <= MAX_FILE_COUNT && StreamCost(AllSpelled(choices)) <= MAX_TOTAL_BYTES
    ensures Replay(Cut(ReadBlock, StreamBytes(AllSpelled(choices)) + ending, corrupt, 0), Start(EMPTY))
         == Ended(Ok(()), Expected(Chosen(choices)))
  {
    var plans := AllSpelled(choices);
    forall p | p in plans
      ensures Planned(p)
    {
      var i :| 0 <= i < |plans| && p == plans[i];
      SpelledIsPlanned(choices[i]);
    }
    SpelledItems(choices);
    RoundTrip(plans, ending, corrupt);
  }

  lemma SpelledItems(choices: seq<Choice>)
    requires forall c :: c in choices ==> Spellable(c)
    ensures Items(AllSpelled(choices)) == Chosen(choices)
  {
    forall i | 0 <= i < |choices|
      ensures AllSpelled(choices)[i].item == choices[i].item
    {
    }
  }

  /** An item the extractor can hold: ordinary components without NUL, and within
      the path and file caps. */
  predicate Holdable(item: Item) {
    && item.path != [] && OrdinaryPath(item.path) && !HasNul(item.path)
    && |Join(item.path, '/')| <= MAX_PATH_CHARS && |BodyOf(item)| <= MAX_FILE_BYTES
  }

  lemma {:induction false} EncodedLength(s: string)
    ensures |Encode(s)| <= 4 * |s|
  {
    if s != [] {
      EncodedLength(s[1..]);
    }
  }

  lemma {:induction false} PrintedNulFree(path: Path)
    requires path != [] && !HasNul(path)
    ensures '\0' !in Join(path, '/')
  {
    assert '\0' !in path[0];
    if |path| > 1 {
      assert !HasNul(path[1..]) by {
        assert forall i :: 0 <= i < |path| - 1 ==> path[1..][i] == path[i + 1];
      }
      PrintedNulFree(path[1..]);
    }
  }

  /** Every item the extractor can hold has a spelling: its printed path as a GNU
      long name, whatever the frame and the size spelling. */
  lemma EveryItemIsSpellable(item: Item, binary: bool, frame: Frame, raw: seq<byte>, prefix: seq<byte>)
    requires Holdable(item) && FrameFits(frame) && |raw| == 100 && |prefix| == 155
    ensures Spellable(Choice(item, Join(item.path, '/'), Gnu(0, raw, prefix), binary, frame))
  {
    var name := Join(item.path, '/');
    ResolveOfPrinted(item.path);
    EncodedLength(name);
    PrintedNulFree(item.path);
    assert name != "" ==> name[|name| - 1] in name;
  }
}
