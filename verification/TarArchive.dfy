/** The reference meaning of an archive: first cut the fully inflated bytes into
    entries by position, then replay the entries onto a tree
    (backend/src/agents/fetch.rs:990-1140). The streaming extractor is proved
    against this in TarExtract. */
module TarArchive {
  import opened Text
  import opened TarFormat
  import opened TarDisk

  // ---- cutting ----------------------------------------------------------------------

  datatype Header = Header(name: string, size: nat, flag: byte, prefix: string)

  /** Entries in order. `cut` says that the bytes ran out inside the body or its
      padding, and why; `body` is then what was left of the body. */
  datatype Archive =
    | End
    | Broken(why: Why)
    | Entry(head: Header, body: seq<byte>, cut: Option<Why>, rest: Archive)

  predicate AllZero(bs: seq<byte>) { forall i :: 0 <= i < |bs| ==> bs[i] == 0 }

  datatype Block = Last | Unreadable | Describes(head: Header)

  /** A block at an entry boundary: all zero at the end of the archive, otherwise
      the fields of a header. */
  function ReadBlock(block: seq<byte>): Block {
    if |block| != BLOCK then Unreadable
    else if AllZero(block) then Last
    else
      match SizeOf(block[124..136])
      case None => Unreadable
      case Some(size) => Describes(Header(CStr(block[..100]), size, block[156], CStr(block[345..500])))
  }

  /** What reading past the inflated bytes reports. */
  function RunOut(corrupt: bool): Why { if corrupt then GzipDecode else Truncated }

  function Min(a: nat, b: nat): nat { if a < b then a else b }

  /** No body is longer than its header says, and a shorter one was cut. */
  predicate Trimmable(a: Archive) {
    a.Entry? ==>
      |a.body| <= a.head.size && (|a.body| < a.head.size ==> a.cut.Some?) && Trimmable(a.rest)
  }

  /** How a block is read. Cutting and walking an archive are the same for every
      way to read a block; the extractor's is `ReadBlock`. */
  type Reader = seq<byte> -> Block

  /** The entries of the inflated bytes from position `pos` on; `corrupt` says
      that inflation fails after them instead of ending. */
  function Cut(read: Reader, data: seq<byte>, corrupt: bool, pos: nat): (a: Archive)
    requires pos <= |data|
    ensures Trimmable(a)
    decreases |data| - pos
  {
    if pos == |data| then if corrupt then Broken(GzipDecode) else End
    else if pos + BLOCK > |data| then Broken(RunOut(corrupt))
    else
      match read(data[pos..pos + BLOCK])
      case Last => End
      case Unreadable => Broken(BadOctal)
      case Describes(head) =>
        var from := pos + BLOCK;
        var next := from + head.size + Pad(head.size);
        var body := data[from..Min(from + head.size, |data|)];
        if next <= |data| then Entry(head, body, None, Cut(read, data, corrupt, next))
        else Entry(head, body, Some(RunOut(corrupt)), End)
  }

  // ---- replaying -------------------------------------------------------------------

  datatype State = State(pending: Option<string>, count: nat, total: nat, tree: Tree)

  datatype Step = Go(state: State) | Halt(fault: Fault, tree: Tree)

  datatype Ended = Ended(result: Outcome<()>, tree: Tree)

  predicate IsFileFlag(flag: byte) { flag == 0x30 || flag == 0 || flag == 0x37 }

  predicate IsLinkFlag(flag: byte) { flag == 0x31 || flag == 0x32 }

  const LONG_NAME: byte := 0x4C
  const PAX: byte := 0x78
  const PAX_GLOBAL: byte := 0x67
  const DIRECTORY: byte := 0x35

  /** Charging `got` of `size` body bytes against the budget; `why` is what
      stops a body that is cut short. */
  function Charge(total: nat, got: nat, size: nat, why: Why): Outcome<nat> {
    if total + got > MAX_TOTAL_BYTES then Err(PayloadTooLarge)
    else if got < size then Err(Internal(why))
    else Ok(total + got)
  }

  function Consume(total: nat, e: Archive): Outcome<nat>
    requires e.Entry?
  {
    Charge(total, |e.body|, e.head.size, if e.cut.Some? then e.cut.value else Truncated)
  }

  /** A metadata body: bounded, then charged. */
  function ConsumeMeta(total: nat, e: Archive): Outcome<nat>
    requires e.Entry?
  {
    if e.head.size > MAX_META_BYTES then Err(PayloadTooLarge) else Consume(total, e)
  }

  function EntryName(e: Archive, s: State): string
    requires e.Entry?
  {
    ResolveName(s.pending, e.head.name, e.head.prefix)
  }

  datatype Opened = Opened(result: Outcome<()>, tree: Tree)

  /** Where a file entry is about to be created: its tree with the parents made. */
  function Prepare(t: Tree, path: Path): Outcome<Tree> {
    if path == [] then Ok(t) else MakeDirs(t, Parent(path))
  }

  /** An empty file at `path`, its parents made first. */
  function Open(t: Tree, path: Path): (u: Opened)
    ensures u.result != Err(Cancelled)
  {
    if path in t && t[path].Link? then Opened(Err(Internal(ThroughSymlink)), t)
    else
      match Prepare(t, path)
      case Err(fault) => Opened(Err(fault), t)
      case Ok(ready) =>
        match CreateFile(ready, path)
        case Err(fault) => Opened(Err(fault), ready)
        case Ok(u) => Opened(Ok(()), u)
  }

  /** The caps a file must meet before anything is touched, and where it goes. */
  function Admit(name: string, size: nat, total: nat, count: nat): (r: Outcome<Path>)
    ensures r != Err(Cancelled)
  {
    if size > MAX_FILE_BYTES || total + size > MAX_TOTAL_BYTES || count + 1 > MAX_FILE_COUNT
    then Err(PayloadTooLarge)
    else Resolve(name)
  }

  /** A regular file: charged once in advance and once as its bytes arrive. */
  function ApplyFile(admitted: Outcome<Path>, e: Archive, s: State): Step
    requires e.Entry?
  {
    match admitted
    case Err(fault) => Halt(fault, s.tree)
    case Ok(path) =>
      var at := Open(s.tree, path);
      match at.result
      case Err(fault) => Halt(fault, at.tree)
      case Ok(_) =>
        match Consume(s.total + e.head.size, e)
        case Err(fault) => Halt(fault, at.tree - {path})
        case Ok(total) => Go(State(None, s.count + 1, total, at.tree[path := File(e.body)]))
  }

  function Admitted(e: Archive, s: State): Outcome<Path>
    requires e.Entry?
  {
    Admit(EntryName(e, s), e.head.size, s.total, s.count)
  }

  /** A directory: counted like a file, any claimed body discarded first. */
  function ApplyDir(e: Archive, s: State): Step
    requires e.Entry?
  {
    if s.count + 1 > MAX_FILE_COUNT then Halt(PayloadTooLarge, s.tree)
    else
      match Resolve(EntryName(e, s))
      case Err(fault) => Halt(fault, s.tree)
      case Ok(path) =>
        match Consume(s.total, e)
        case Err(fault) => Halt(fault, s.tree)
        case Ok(total) =>
          match MakeDirs(s.tree, path)
          case Err(fault) => Halt(fault, s.tree)
          case Ok(t) => Go(State(None, s.count + 1, total, t))
  }

  function Apply(e: Archive, s: State): Step
    requires e.Entry?
  {
    var flag := e.head.flag;
    if flag == LONG_NAME then
      match ConsumeMeta(s.total, e)
      case Err(fault) => Halt(fault, s.tree)
      case Ok(total) => Go(s.(total := total, pending := Some(TrimNuls(DecodeLossy(e.body)))))
    else if flag == PAX then
      match ConsumeMeta(s.total, e)
      case Err(fault) => Halt(fault, s.tree)
      case Ok(total) =>
        var path := PaxPath(e.body);
        Go(s.(total := total, pending := if path.Some? then path else s.pending))
    else if IsFileFlag(flag) then ApplyFile(Admitted(e, s), e, s)
    else if flag == DIRECTORY then ApplyDir(e, s)
    else if IsLinkFlag(flag) then Halt(Internal(LinkEntry), s.tree)
    else
      match Consume(s.total, e)
      case Err(fault) => Halt(fault, s.tree)
      case Ok(total) => Go(s.(total := total, pending := if flag == PAX_GLOBAL then s.pending else None))
  }

  function Replay(a: Archive, s: State): Ended {
    match a
    case End => Ended(Ok(()), s.tree)
    case Broken(why) => Ended(Err(Internal(why)), s.tree)
    case Entry(_, _, cut, rest) =>
      match Apply(a, s)
      case Halt(fault, t) => Ended(Err(fault), t)
      case Go(next) =>
        if cut.Some? then Ended(Err(Internal(cut.value)), next.tree) else Replay(rest, next)
  }

  /** An entry that is applied and whole hands over to the rest. */
  lemma ReplayStep(e: Archive, s: State, next: State)
    requires e.Entry? && e.cut.None? && Apply(e, s) == Go(next)
    ensures Replay(e, s) == Replay(e.rest, next)
  {
  }

  function Start(t: Tree): State { State(None, 0, 0, t) }

  // ---- what every step keeps -------------------------------------------------------

  /** What holds between two entries of an extraction that began with `base`
      bytes on disk: the tree is contained, both budgets hold, and every byte
      written was charged twice. */
  ghost predicate Sound(s: State, base: nat) {
    && WellFormed(s.tree)
    && s.total <= MAX_TOTAL_BYTES && s.count <= MAX_FILE_COUNT
    && 2 * TreeBytes(s.tree) <= 2 * base + s.total
  }

  /** What an entry costs: a regular file's bytes count twice. */
  function Cost(e: Archive): nat
    requires e.Entry?
  {
    if IsFileFlag(e.head.flag) then 2 * |e.body| else |e.body|
  }

  function Members(e: Archive): nat
    requires e.Entry?
  {
    if IsFileFlag(e.head.flag) || e.head.flag == DIRECTORY then 1 else 0
  }

  /** An entry that is applied keeps the state sound and is charged its exact
      cost; one that is refused leaves a contained tree within the budget. */
  lemma ApplyKeepsSound(e: Archive, s: State, base: nat)
    requires e.Entry? && |e.body| <= e.head.size && Sound(s, base)
    ensures match Apply(e, s)
            case Go(next) =>
              Sound(next, base) && next.total == s.total + Cost(e) && next.count == s.count + Members(e)
            case Halt(_, t) =>
              WellFormed(t) && 2 * TreeBytes(t) <= 2 * base + s.total
  {
    if IsFileFlag(e.head.flag) {
      ApplyFileKeepsSound(e, s, base);
    } else if e.head.flag == DIRECTORY {
      ApplyDirKeepsSound(e, s, base);
    }
  }

  lemma ApplyDirKeepsSound(e: Archive, s: State, base: nat)
    requires e.Entry? && |e.body| <= e.head.size && Sound(s, base)
    ensures match ApplyDir(e, s)
            case Go(next) =>
              Sound(next, base) && next.total == s.total + |e.body| && next.count == s.count + 1
            case Halt(_, t) => t == s.tree
  {
    match Resolve(EntryName(e, s))
    case Err(_) =>
    case Ok(path) =>
      ResolvedIsContained(EntryName(e, s));
      if MakeDirs(s.tree, path).Ok? {
        MakeDirsWellFormed(s.tree, path);
        BytesOfMakeDirs(s.tree, path);
      }
  }

  /** Opening a file keeps the tree contained and writes nothing; filling it
      costs at most its size, and taking it away again costs nothing. */
  lemma OpenKeepsBytes(t: Tree, path: Path, body: seq<byte>)
    requires WellFormed(t) && OrdinaryPath(path)
    ensures var u := Open(t, path);
            && WellFormed(u.tree) && TreeBytes(u.tree) <= TreeBytes(t)
            && (u.result.Ok? ==>
                  && path in u.tree && u.tree[path] == File([])
                  && WellFormed(u.tree[path := File(body)])
                  && TreeBytes(u.tree[path := File(body)]) <= TreeBytes(t) + |body|
                  && WellFormed(u.tree - {path}) && TreeBytes(u.tree - {path}) <= TreeBytes(t))
  {
    if Prepare(t, path).Ok? {
      PrepareKeepsBytes(t, path);
      var ready := Prepare(t, path).value;
      if CreateFile(ready, path).Ok? {
        FilledOrRemoved(ready, path, body);
      }
    }
  }

  lemma FilledOrRemoved(t: Tree, path: Path, body: seq<byte>)
    requires WellFormed(t) && OrdinaryPath(path) && CreateFile(t, path).Ok?
    ensures var u := CreateFile(t, path).value;
            && WellFormed(u) && TreeBytes(u) <= TreeBytes(t)
            && WellFormed(u[path := File(body)]) && TreeBytes(u[path := File(body)]) <= TreeBytes(t) + |body|
            && WellFormed(u - {path}) && TreeBytes(u - {path}) <= TreeBytes(t)
  {
    var u := CreateFile(t, path).value;
    CreateFileWellFormed(t, path, []);
    CreateFileWellFormed(t, path, body);
    BytesOfUpdate(t, path, File(body));
    assert u[path := File(body)] == t[path := File(body)];
    BytesOfUpdate(t, path, File([]));
    BytesOfRemove(u, path);
    assert u - {path} == t - {path};
  }

  lemma PrepareKeepsBytes(t: Tree, path: Path)
    requires WellFormed(t) && OrdinaryPath(path) && Prepare(t, path).Ok?
    ensures WellFormed(Prepare(t, path).value) && TreeBytes(Prepare(t, path).value) == TreeBytes(t)
  {
    if path != [] {
      assert OrdinaryPath(Parent(path));
      MakeDirsWellFormed(t, Parent(path));
      BytesOfMakeDirs(t, Parent(path));
    }
  }

  lemma ApplyFileKeepsSound(e: Archive, s: State, base: nat)
    requires e.Entry? && |e.body| <= e.head.size && Sound(s, base)
    ensures match ApplyFile(Admitted(e, s), e, s)
            case Go(next) =>
              Sound(next, base) && next.total == s.total + 2 * |e.body| && next.count == s.count + 1
            case Halt(_, t) =>
              WellFormed(t) && 2 * TreeBytes(t) <= 2 * base + s.total
  {
    if Admitted(e, s).Ok? {
      ResolvedIsContained(EntryName(e, s));
      OpenKeepsBytes(s.tree, Resolve(EntryName(e, s)).value, e.body);
    }
  }

  // ---- no partial files --------------------------------------------------------------

  /** Every file holds one of the given bodies. */
  ghost predicate FilesFrom(t: Tree, bodies: set<seq<byte>>) {
    forall p :: p in t && t[p].File? ==> t[p].bytes in bodies
  }

  /** The complete bodies of an archive's regular files, none above the file cap. */
  ghost function Bodies(a: Archive): set<seq<byte>> {
    match a
    case Entry(head, body, _, rest) =>
      (if IsFileFlag(head.flag) && |body| == head.size <= MAX_FILE_BYTES then {body} else {}) + Bodies(rest)
    case _ => {}
  }

  /** The bodies a tree holds. */
  ghost function Stored(t: Tree): set<seq<byte>> {
    set p | p in t && t[p].File? :: t[p].bytes
  }

  /** The tree an entry leaves when it is cancelled: a file whose body was being
      streamed is gone. */
  function Interrupted(e: Archive, s: State): Tree
    requires e.Entry?
  {
    if IsFileFlag(e.head.flag) then InterruptedFile(Admitted(e, s), s.tree) else s.tree
  }

  function InterruptedFile(admitted: Outcome<Path>, t: Tree): Tree {
    match admitted
    case Err(_) => t
    case Ok(path) => if Open(t, path).result.Ok? then Open(t, path).tree - {path} else t
  }

  /** Applied, refused or cancelled, an entry leaves complete files only. */
  lemma ApplyLeavesWholeFiles(e: Archive, s: State, bodies: set<seq<byte>>)
    requires e.Entry? && |e.body| <= e.head.size && FilesFrom(s.tree, bodies)
    requires IsFileFlag(e.head.flag) && |e.body| == e.head.size <= MAX_FILE_BYTES ==> e.body in bodies
    ensures FilesFrom(Interrupted(e, s), bodies)
    ensures match Apply(e, s)
            case Go(next) => FilesFrom(next.tree, bodies)
            case Halt(_, t) => FilesFrom(t, bodies)
  {
  }

  /** However an uncancelled extraction ends, every file on disk is the complete
      body of an entry or was there before. */
  lemma {:induction false} ReplayLeavesWholeFiles(a: Archive, s: State, bodies: set<seq<byte>>)
    requires Bodies(a) <= bodies && FilesFrom(s.tree, bodies) && Trimmable(a)
    ensures FilesFrom(Replay(a, s).tree, bodies)
  {
    if a.Entry? {
      ApplyLeavesWholeFiles(a, s, bodies);
      var step := Apply(a, s);
      if step.Go? && a.cut.None? {
        ReplayLeavesWholeFiles(a.rest, step.state, bodies);
      }
    }
  }

  /** Every file is within the file cap, apart from the given bodies. */
  ghost predicate FilesWithin(t: Tree, others: set<seq<byte>>) {
    forall p :: p in t && t[p].File? ==> |t[p].bytes| <= MAX_FILE_BYTES || t[p].bytes in others
  }

  lemma {:induction false} BodiesAreCapped(a: Archive)
    ensures forall b :: b in Bodies(a) ==> |b| <= MAX_FILE_BYTES
  {
    if a.Entry? {
      BodiesAreCapped(a.rest);
    }
  }

  // ---- between two entries -----------------------------------------------------------

  /** The state after the first `k` entries, when all of them are applied and
      whole: the extraction loop is at its head for the `k`th time. */
  function After(a: Archive, s: State, k: nat): Option<State>
    decreases k
  {
    if k == 0 then Some(s)
    else if a.Entry? && a.cut.None? && Apply(a, s).Go? then After(a.rest, Apply(a, s).state, k - 1)
    else None
  }

  /** What is left after the first `k` entries. */
  function Rest(a: Archive, k: nat): Archive
    decreases k
  {
    if k > 0 && a.Entry? then Rest(a.rest, k - 1) else a
  }

  /** The bytes of regular files, and of all other bodies, among the first `k` entries. */
  function FileBytes(a: Archive, k: nat): nat
    decreases k
  {
    if k > 0 && a.Entry? then (if IsFileFlag(a.head.flag) then |a.body| else 0) + FileBytes(a.rest, k - 1)
    else 0
  }

  function OtherBytes(a: Archive, k: nat): nat
    decreases k
  {
    if k > 0 && a.Entry? then (if IsFileFlag(a.head.flag) then 0 else |a.body|) + OtherBytes(a.rest, k - 1)
    else 0
  }

  /** The files and directories among the first `k` entries. */
  function Entries(a: Archive, k: nat): nat
    decreases k
  {
    if k > 0 && a.Entry? then Members(a) + Entries(a.rest, k - 1) else 0
  }

  /** At every loop head the total is exactly twice the file bytes plus all other
      bodies so far, the count is exactly that of files and directories, and both
      are within their budgets. */
  lemma {:induction false} TotalIsExact(a: Archive, s: State, base: nat, k: nat)
    requires Trimmable(a) && Sound(s, base) && After(a, s, k).Some?
    ensures var now := After(a, s, k).value;
            && Sound(now, base)
            && now.total == s.total + 2 * FileBytes(a, k) + OtherBytes(a, k)
            && now.count == s.count + Entries(a, k)
    decreases k
  {
    if k > 0 {
      ApplyKeepsSound(a, s, base);
      TotalIsExact(a.rest, Apply(a, s).state, base, k - 1);
    }
  }

  /** From a loop head the rest of the archive replays as the whole does. */
  lemma {:induction false} ReplayAfter(a: Archive, s: State, k: nat)
    requires After(a, s, k).Some?
    ensures Replay(a, s) == Replay(Rest(a, k), After(a, s, k).value)
    decreases k
  {
    if k > 0 {
      ReplayAfter(a.rest, Apply(a, s).state, k - 1);
    }
  }

  /** One more entry leads from a loop head to the next. */
  lemma {:induction false} AfterNext(a: Archive, s: State, k: nat)
    requires After(a, s, k).Some? && Rest(a, k).Entry? && Rest(a, k).cut.None?
    requires Apply(Rest(a, k), After(a, s, k).value).Go?
    ensures After(a, s, k + 1) == Some(Apply(Rest(a, k), After(a, s, k).value).state)
    ensures Rest(a, k + 1) == Rest(a, k).rest
    decreases k
  {
    if k > 0 {
      AfterNext(a.rest, Apply(a, s).state, k - 1);
    }
  }

  /** Both at once, with the exact total and count. */
  lemma HeadNext(a: Archive, s: State, base: nat, k: nat, now: State, next: State)
    requires Trimmable(a) && Sound(s, base) && After(a, s, k) == Some(now)
    requires Rest(a, k).Entry? && Rest(a, k).cut.None? && Apply(Rest(a, k), now) == Go(next)
    ensures After(a, s, k + 1) == Some(next) && Rest(a, k + 1) == Rest(a, k).rest
    ensures next.total == s.total + 2 * FileBytes(a, k + 1) + OtherBytes(a, k + 1)
    ensures next.count == s.count + Entries(a, k + 1)
  {
    AfterNext(a, s, k);
    TotalIsExact(a, s, base, k + 1);
  }

  lemma {:induction false} AfterLeavesWholeFiles(a: Archive, s: State, k: nat, bodies: set<seq<byte>>)
    requires Bodies(a) <= bodies && FilesFrom(s.tree, bodies) && Trimmable(a) && After(a, s, k).Some?
    ensures FilesFrom(After(a, s, k).value.tree, bodies)
    ensures Bodies(Rest(a, k)) <= bodies && Trimmable(Rest(a, k))
    decreases k
  {
    if k > 0 {
      ApplyLeavesWholeFiles(a, s, bodies);
      AfterLeavesWholeFiles(a.rest, Apply(a, s).state, k - 1, bodies);
    }
  }

  /** Where a cancelled extraction may stop: at a loop head, or inside the next
      entry. */
  ghost predicate StopsAt(a: Archive, s: State, k: nat, t: Tree) {
    && After(a, s, k).Some?
    && (t == After(a, s, k).value.tree
        || (Rest(a, k).Entry? && t == Interrupted(Rest(a, k), After(a, s, k).value)))
  }

  /** A cancelled extraction leaves complete files only. */
  lemma StopLeavesWholeFiles(a: Archive, s: State, k: nat, t: Tree, bodies: set<seq<byte>>)
    requires StopsAt(a, s, k, t) && Trimmable(a) && Bodies(a) <= bodies && FilesFrom(s.tree, bodies)
    ensures FilesFrom(t, bodies)
  {
    AfterLeavesWholeFiles(a, s, k, bodies);
    if Rest(a, k).Entry? {
      ApplyLeavesWholeFiles(Rest(a, k), After(a, s, k).value, bodies);
    }
  }

  // ---- the budget over a whole archive ------------------------------------------------

  function Length(a: Archive): nat { if a.Entry? then 1 + Length(a.rest) else 0 }

  /** An extraction that succeeds passed every entry: it charged exactly twice the
      archive's file bytes plus all its other bodies, counted exactly its files and
      directories, and stayed within both budgets. */
  lemma {:induction false} SuccessIsPaidFor(a: Archive, s: State, base: nat)
    requires Trimmable(a) && Sound(s, base) && Replay(a, s).result.Ok?
    ensures var all := After(a, s, Length(a));
            && all.Some? && all.value.tree == Replay(a, s).tree && Sound(all.value, base)
            && all.value.total == s.total + 2 * FileBytes(a, Length(a)) + OtherBytes(a, Length(a))
            && all.value.count == s.count + Entries(a, Length(a))
  {
    if a.Entry? {
      ApplyKeepsSound(a, s, base);
      SuccessIsPaidFor(a.rest, Apply(a, s).state, base);
    }
  }

  // ---- each type flag, by its byte ------------------------------------------------------

  predicate NoLinkEntry(a: Archive) {
    a.Entry? ==> a.head.flag != 0x31 && a.head.flag != 0x32 && NoLinkEntry(a.rest)
  }

  /** An archive with a hard or symbolic link is never extracted with success. */
  lemma {:induction false} SuccessHasNoLinks(a: Archive, s: State)
    requires Replay(a, s).result.Ok?
    ensures NoLinkEntry(a)
  {
    if a.Entry? {
      SuccessHasNoLinks(a.rest, Apply(a, s).state);
    }
  }

  /** An extraction that comes to a link ends there, and leaves the tree as it was. */
  lemma LinkIsRefused(a: Archive, s: State, k: nat)
    requires After(a, s, k).Some? && Rest(a, k).Entry?
    requires Rest(a, k).head.flag == 0x31 || Rest(a, k).head.flag == 0x32
    ensures Replay(a, s) == Ended(Err(Internal(LinkEntry)), After(a, s, k).value.tree)
  {
    ReplayAfter(a, s, k);
  }

  /** The byte limits: 20 MiB a file, 150 MiB of budget, 64 KiB a name, 20 000 entries. */
  predicate OverBudget(s: State, n: nat) { s.total + n > 157_286_400 }

  /** A name entry, `L` or `x`: refused when it is over a limit or cut short; otherwise
      it writes nothing and counts nothing, and names the next entry. */
  lemma NameEntry(e: Archive, s: State)
    requires e.Entry? && |e.body| <= e.head.size && (e.head.flag == 0x4C || e.head.flag == 0x78)
    ensures match Apply(e, s)
            case Go(next) =>
              && e.head.size <= 65_536 && !OverBudget(s, |e.body|) && |e.body| == e.head.size
              && next.tree == s.tree && next.count == s.count && next.total == s.total + |e.body|
              && next.pending
                 == if e.head.flag == 0x4C then Some(TrimNuls(DecodeLossy(e.body)))
                    else if PaxPath(e.body).Some? then PaxPath(e.body) else s.pending
            case Halt(fault, t) =>
              && t == s.tree
              && (fault == PayloadTooLarge <==> e.head.size > 65_536 || OverBudget(s, |e.body|))
              && (fault != PayloadTooLarge ==> |e.body| < e.head.size)
  {
  }

  /** A regular file, `0`, NUL or `7`: counted once and charged twice, and it uses up the
      pending name; refused by size, budget or count before anything is touched. */
  lemma FileEntry(e: Archive, s: State)
    requires e.Entry? && |e.body| <= e.head.size
    requires e.head.flag == 0x30 || e.head.flag == 0x00 || e.head.flag == 0x37
    ensures e.head.size > 20_971_520 || OverBudget(s, e.head.size) || s.count + 1 > 20_000 ==>
              Apply(e, s) == Halt(PayloadTooLarge, s.tree)
    ensures e.head.size <= 20_971_520 && !OverBudget(s, e.head.size) && s.count + 1 <= 20_000 ==>
              var name := if s.pending.Some? then s.pending.value
                          else if e.head.prefix == "" then e.head.name else e.head.prefix + "/" + e.head.name;
              match Resolve(name)
              case Err(fault) => Apply(e, s) == Halt(fault, s.tree)
              case Ok(path) => path in s.tree && s.tree[path].Link? ==> Apply(e, s) == Halt(Internal(ThroughSymlink), s.tree)
    ensures match Apply(e, s)
            case Go(next) =>
              var name := if s.pending.Some? then s.pending.value
                          else if e.head.prefix == "" then e.head.name else e.head.prefix + "/" + e.head.name;
              && |e.body| == e.head.size && next.count == s.count + 1 && next.total == s.total + 2 * |e.body|
              && next.pending == None
              && Resolve(name).Ok? && Resolve(name).value in next.tree && next.tree[Resolve(name).value] == File(e.body)
            case Halt(_, _) => true
  {
  }

  /** A directory, `5`: counted once, any claimed body charged once; it uses up the
      pending name and is there afterwards. */
  lemma DirectoryEntry(e: Archive, s: State)
    requires e.Entry? && |e.body| <= e.head.size && e.head.flag == 0x35
    ensures s.count + 1 > 20_000 ==> Apply(e, s) == Halt(PayloadTooLarge, s.tree)
    ensures match Apply(e, s)
            case Go(next) =>
              var name := if s.pending.Some? then s.pending.value
                          else if e.head.prefix == "" then e.head.name else e.head.prefix + "/" + e.head.name;
              && next.count == s.count + 1 && next.total == s.total + |e.body| && next.pending == None
              && Resolve(name).Ok? && MakeDirs(s.tree, Resolve(name).value) == Ok(next.tree)
            case Halt(_, t) => t == s.tree
  {
  }

  /** Every other entry but a link is skipped: charged once, nothing counted or written;
      a global header leaves the pending name, anything else drops it. */
  lemma SkippedEntry(e: Archive, s: State)
    requires e.Entry? && |e.body| <= e.head.size
    requires e.head.flag !in {0x4C, 0x78, 0x30, 0x00, 0x37, 0x35, 0x31, 0x32}
    ensures match Apply(e, s)
            case Go(next) =>
              && next.tree == s.tree && next.count == s.count && next.total == s.total + |e.body|
              && next.pending == if e.head.flag == 0x67 then s.pending else None
            case Halt(fault, t) =>
              t == s.tree && (fault == PayloadTooLarge <==> OverBudget(s, |e.body|))
  {
  }
}
