/** The streaming extractor (backend/src/agents/fetch.rs:885-1140): blocks and
    chunks pulled from an inflater that may return short reads, written straight
    to disk, under one budget and a cancellation flag. */
module TarExtract {
  import opened Text
  import opened TarFormat
  import opened TarDisk
  import opened TarArchive

  const CHUNK_BYTES: nat := 64 * 1024

  datatype ReadResult = Got(n: nat) | Failed

  /** The inflater: a finite byte string handed out in pieces of arbitrary size,
      then end of file, or an error when the gzip stream is corrupt. */
  class Decoder {
    const data: seq<byte>
    const corrupt: bool
    var pos: nat

    ghost predicate Valid()
      reads this
    {
      pos <= |data|
    }

    constructor (data: seq<byte>, corrupt: bool)
      ensures Valid() && this.data == data && this.corrupt == corrupt && pos == 0
    {
      this.data := data;
      this.corrupt := corrupt;
      pos := 0;
    }

    /** `read(&mut buf[lo..hi])`: some bytes while there are any. */
    method Read(buf: array<byte>, lo: nat, hi: nat) returns (r: ReadResult)
      requires Valid() && lo < hi <= buf.Length
      modifies this`pos, buf
      ensures Valid()
      ensures if old(pos) == |data| then
                r == (if corrupt then Failed else Got(0)) && pos == old(pos)
              else
                && r.Got? && 1 <= r.n <= hi - lo && pos == old(pos) + r.n
                && buf[lo..lo + r.n] == data[old(pos)..pos]
                && buf[..lo] == old(buf[..lo])
    {
      if pos == |data| {
        return if corrupt then Failed else Got(0);
      }
      var most := Min(hi - lo, |data| - pos);
      var n :| 1 <= n <= most;
      forall i | 0 <= i < n {
        buf[lo + i] := data[pos + i];
      }
      pos := pos + n;
      r := Got(n);
    }
  }

  /** The job's cancellation flag. It may rise at any moment, which `Elapse`
      stands for, and never falls. `late` counts body bytes that were streamed
      after it rose. */
  class CancelFlag {
    var raised: bool
    ghost var late: nat

    ghost predicate Valid()
      reads this
    {
      late <= CHUNK_BYTES && (late > 0 ==> raised)
    }

    constructor ()
      ensures Valid() && !raised
    {
      raised := false;
      late := 0;
    }

    method Elapse()
      requires Valid()
      modifies this
      ensures Valid() && late == old(late) && (old(raised) ==> raised)
    {
      if * {
        raised := true;
      }
    }

    method Poll() returns (b: bool)
      requires Valid()
      modifies this
      ensures Valid() && b == raised && late == old(late) && (old(raised) ==> raised)
    {
      Elapse();
      b := raised;
    }

    ghost method Streamed(n: nat)
      requires Valid() && (raised ==> late + n <= CHUNK_BYTES)
      modifies this`late
      ensures Valid() && late == if raised then old(late) + n else old(late)
    {
      late := if raised then late + n else late;
    }
  }

  /** `fill_block`: one whole block, clean end of file at a block boundary, or
      an error. */
  method FillBlock(decoder: Decoder, block: array<byte>) returns (r: Outcome<bool>)
    requires decoder.Valid() && block.Length == BLOCK
    modifies decoder`pos, block
    ensures decoder.Valid()
    ensures var from, data := old(decoder.pos), decoder.data;
            if from + BLOCK <= |data| then
              r == Ok(true) && decoder.pos == from + BLOCK && block[..] == data[from..from + BLOCK]
            else if from == |data| && !decoder.corrupt then r == Ok(false)
            else r == Err(Internal(if decoder.corrupt then GzipDecode else Truncated))
  {
    ghost var from, data := decoder.pos, decoder.data;
    var filled: nat := 0;
    while filled < block.Length
      invariant decoder.Valid() && filled <= BLOCK
      invariant decoder.pos == old(decoder.pos) + filled
      invariant block[..filled] == decoder.data[old(decoder.pos)..decoder.pos]
    {
      ghost var before := decoder.pos;
      var got := decoder.Read(block, filled, block.Length);
      match got
      case Failed =>
        return Err(Internal(GzipDecode));
      case Got(n) =>
        if n == 0 {
          if filled == 0 {
            return Ok(false);
          }
          return Err(Internal(Truncated));
        }
        assert block[..filled + n] == block[..filled] + block[filled..filled + n];
        assert data[from..decoder.pos] == data[from..before] + data[before..decoder.pos];
        filled := filled + n;
    }
    return Ok(true);
  }

  function SaturatingAdd(a: nat, b: nat): nat { Min(a + b, U64 - 1) }

  /** `charge`. */
  method ChargeBytes(total: nat, n: nat) returns (r: Outcome<nat>)
    requires total <= MAX_TOTAL_BYTES && n <= CHUNK_BYTES
    ensures r == if total + n > MAX_TOTAL_BYTES then Err(PayloadTooLarge) else Ok(total + n)
  {
    var sum := SaturatingAdd(total, n);
    if sum > MAX_TOTAL_BYTES {
      return Err(PayloadTooLarge);
    }
    return Ok(sum);
  }

  datatype Output = ToFile(path: Path) | ToMemory | ToSink

  /** The tree after `bytes` went to `out`. */
  function Written(t: Tree, out: Output, bytes: seq<byte>): Tree {
    if out.ToFile? && out.path in t && t[out.path].File?
    then t[out.path := File(t[out.path].bytes + bytes)]
    else t
  }

  lemma WrittenNothing(t: Tree, out: Output)
    ensures Written(t, out, []) == t
  {
    if out.ToFile? && out.path in t && t[out.path].File? {
      assert t[out.path].bytes + [] == t[out.path].bytes;
    }
  }

  lemma WrittenTwice(t: Tree, out: Output, a: seq<byte>, b: seq<byte>)
    ensures Written(Written(t, out, a), out, b) == Written(t, out, a + b)
  {
    if out.ToFile? && out.path in t && t[out.path].File? {
      assert t[out.path].bytes + a + b == t[out.path].bytes + (a + b);
    }
  }

  /** `out.write_all(..)` on a file, a buffer, or the sink. */
  method WriteAll(out: Output, piece: seq<byte>, disk: Disk, memory: seq<byte>) returns (kept: seq<byte>)
    requires disk.Valid()
    requires out.ToFile? ==> out.path in disk.tree && disk.tree[out.path].File?
    requires out.ToFile? ==> TreeBytes(disk.tree) + |piece| <= disk.ceiling
    modifies disk`tree
    ensures disk.Valid() && disk.tree == Written(old(disk.tree), out, piece)
    ensures out.ToFile? ==> TreeBytes(disk.tree) == TreeBytes(old(disk.tree)) + |piece|
    ensures kept == if out.ToMemory? then memory + piece else memory
  {
    kept := memory;
    match out {
      case ToFile(path) => disk.Append(path, piece);
      case ToMemory => kept := memory + piece;
      case ToSink =>
    }
  }

  /** One chunk: a read, and the write of what it gave. */
  method MoveChunk(decoder: Decoder, chunk: array<byte>, want: nat, out: Output, disk: Disk, memory: seq<byte>,
                   cancel: CancelFlag)
      returns (got: ReadResult, kept: seq<byte>)
    requires decoder.Valid() && disk.Valid() && cancel.Valid() && !cancel.raised
    requires 0 < want <= chunk.Length == CHUNK_BYTES
    requires out.ToFile? ==> out.path in disk.tree && disk.tree[out.path].File?
    requires out.ToFile? ==> TreeBytes(disk.tree) + want <= disk.ceiling
    modifies decoder`pos, chunk, disk`tree, cancel
    ensures decoder.Valid() && disk.Valid() && cancel.Valid()
    ensures var from, data := old(decoder.pos), decoder.data;
            if from == |data| then
              && got == (if decoder.corrupt then Failed else Got(0))
              && decoder.pos == from && disk.tree == old(disk.tree) && kept == memory
            else
              && got.Got? && 1 <= got.n <= want && decoder.pos == from + got.n
              && disk.tree == Written(old(disk.tree), out, data[from..decoder.pos])
              && (out.ToFile? ==> TreeBytes(disk.tree) == TreeBytes(old(disk.tree)) + got.n)
              && kept == if out.ToMemory? then memory + data[from..decoder.pos] else memory
  {
    kept := memory;
    got := decoder.Read(chunk, 0, want);
    cancel.Elapse();
    if got.Got? && got.n > 0 {
      kept := WriteAll(out, chunk[0..got.n], disk, memory);
      cancel.Streamed(got.n);
    }
  }

  /** `stream_exact`: whatever pieces the inflater returns, the outcome is the
      one of charging all the bytes that are there. */
  method StreamExact(decoder: Decoder, size: nat, out: Output, disk: Disk, total: nat, cancel: CancelFlag)
      returns (r: Outcome<nat>, memory: seq<byte>)
    requires decoder.Valid() && disk.Valid() && cancel.Valid() && total <= MAX_TOTAL_BYTES
    requires out.ToFile? ==> out.path in disk.tree && disk.tree[out.path].File?
    requires out.ToFile? ==> TreeBytes(disk.tree) + size <= disk.ceiling
    modifies decoder`pos, disk`tree, cancel
    ensures decoder.Valid() && disk.Valid() && cancel.Valid()
    ensures old(decoder.pos) <= decoder.pos
    ensures disk.tree == Written(old(disk.tree), out, decoder.data[old(decoder.pos)..decoder.pos])
    ensures || (r == Err(Cancelled) && cancel.raised)
            || r == Charge(total, Min(size, |decoder.data| - old(decoder.pos)), size, RunOut(decoder.corrupt))
    ensures r.Ok? ==> decoder.pos == old(decoder.pos) + size
    ensures out.ToMemory? ==> memory == decoder.data[old(decoder.pos)..decoder.pos]
  {
    ghost var from := decoder.pos;
    ghost var data := decoder.data;
    var remaining: nat := size;
    var charged := total;
    var chunk := new byte[CHUNK_BYTES];
    memory := [];
    assert data[from..from] == [];
    WrittenNothing(disk.tree, out);
    while remaining > 0
      invariant decoder.Valid() && disk.Valid() && cancel.Valid()
      invariant remaining <= size && decoder.pos == from + (size - remaining)
      invariant charged == total + (size - remaining) <= MAX_TOTAL_BYTES
      invariant disk.tree == Written(old(disk.tree), out, data[from..decoder.pos])
      invariant out.ToFile? ==> TreeBytes(disk.tree) == TreeBytes(old(disk.tree)) + (size - remaining)
      invariant out.ToMemory? ==> memory == data[from..decoder.pos]
    {
      var stop := cancel.Poll();
      if stop {
        return Err(Cancelled), memory;
      }
      var want := Min(remaining, chunk.Length);
      ghost var before := decoder.pos;
      var got;
      got, memory := MoveChunk(decoder, chunk, want, out, disk, memory, cancel);
      match got
      case Failed =>
        return Err(Internal(GzipDecode)), memory;
      case Got(n) =>
        if n == 0 {
          return Err(Internal(Truncated)), memory;
        }
        assert data[from..decoder.pos] == data[from..before] + data[before..decoder.pos];
        WrittenTwice(old(disk.tree), out, data[from..before], data[before..decoder.pos]);
        var charge := ChargeBytes(charged, n);
        if charge.Err? {
          return Err(charge.fault), memory;
        }
        charged := charge.value;
        remaining := remaining - n;
    }
    return Ok(charged), memory;
  }

  // ---- one entry -------------------------------------------------------------------

  /** The entry whose header was just read, with the inflater at its body. */
  ghost predicate AtBody(e: Archive, head: Header, decoder: Decoder)
    reads decoder
  {
    && e.Entry? && e.head == head && decoder.Valid()
    && e.body == decoder.data[decoder.pos..Min(decoder.pos + e.head.size, |decoder.data|)]
    && e.cut == (if decoder.pos + head.size + Pad(head.size) <= |decoder.data| then None
                 else Some(RunOut(decoder.corrupt)))
  }

  /** The rest of the archive starts after the body and its padding. */
  ghost predicate Followed(read: Reader, e: Archive, decoder: Decoder)
    requires e.Entry?
    reads decoder
  {
    e.cut.None? ==>
      var next := decoder.pos + e.head.size + Pad(e.head.size);
      next <= |decoder.data| && e.rest == Cut(read, decoder.data, decoder.corrupt, next)
  }

  /** The symlink check, the parents, and `File::create`. */
  method OpenFile(disk: Disk, path: Path) returns (r: Outcome<()>)
    requires disk.Valid() && OrdinaryPath(path)
    modifies disk`tree
    ensures disk.Valid() && TreeBytes(disk.tree) <= TreeBytes(old(disk.tree))
    ensures Opened(r, disk.tree) == Open(old(disk.tree), path)
    ensures r.Ok? ==> path in disk.tree && disk.tree[path] == File([])
  {
    OpenKeepsBytes(disk.tree, path, []);
    var linked := disk.IsSymlink(path);
    if linked {
      return Err(Internal(ThroughSymlink));
    }
    if path != [] {
      var made := disk.CreateDirAll(Parent(path));
      if made.Err? {
        return made;
      }
    }
    r := disk.Create(path);
  }

  /** A regular file whose caps and path were decided: its parents, then the body
      streamed to disk; a body that fails or is cancelled is removed again. */
  method ExtractFile(ghost e: Archive, head: Header, decoder: Decoder, disk: Disk, ghost s: State,
                     admitted: Outcome<Path>, total: nat, count: nat, cancel: CancelFlag)
      returns (r: Outcome<nat>, counted: nat)
    requires AtBody(e, head, decoder) && disk.Valid() && cancel.Valid()
    requires s == State(s.pending, count, total, disk.tree) && admitted != Err(Cancelled)
    requires admitted.Ok? ==> OrdinaryPath(admitted.value) && total + head.size <= MAX_TOTAL_BYTES
    requires 2 * TreeBytes(disk.tree) + 2 * MAX_TOTAL_BYTES <= 2 * disk.ceiling + total
    modifies decoder`pos, disk`tree, cancel
    ensures decoder.Valid() && disk.Valid() && cancel.Valid()
    ensures if r == Err(Cancelled) then cancel.raised && disk.tree == InterruptedFile(admitted, s.tree)
            else
              match ApplyFile(admitted, e, s)
              case Halt(fault, t) => r == Err(fault) && disk.tree == t
              case Go(next) =>
                && r == Ok(next.total) && counted == next.count && disk.tree == next.tree
                && decoder.pos == old(decoder.pos) + head.size
  {
    counted := count + 1;
    if admitted.Err? {
      return Err(admitted.fault), counted;
    }
    var path := admitted.value;
    var at := OpenFile(disk, path);
    if at.Err? {
      return Err(at.fault), counted;
    }
    r := FillFile(e, head, decoder, disk, path, total + head.size, cancel);
  }

  /** The size, budget and entry caps, then the path. */
  method AdmitFile(name: string, size: nat, total: nat, count: nat) returns (r: Outcome<Path>)
    requires total <= MAX_TOTAL_BYTES
    ensures r == Admit(name, size, total, count)
    ensures r.Ok? ==> OrdinaryPath(r.value) && total + size <= MAX_TOTAL_BYTES
  {
    if size > MAX_FILE_BYTES {
      return Err(PayloadTooLarge);
    }
    var advanced := SaturatingAdd(total, size);
    if advanced > MAX_TOTAL_BYTES {
      return Err(PayloadTooLarge);
    }
    if count + 1 > MAX_FILE_COUNT {
      return Err(PayloadTooLarge);
    }
    r := SafeJoin(name);
    if r.Ok? {
      ResolvedIsContained(name);
    }
  }

  /** `stream_exact` into a file that was just created, and its removal on failure. */
  method FillFile(ghost e: Archive, head: Header, decoder: Decoder, disk: Disk, path: Path, total: nat,
                  cancel: CancelFlag)
      returns (r: Outcome<nat>)
    requires AtBody(e, head, decoder) && disk.Valid() && cancel.Valid() && total <= MAX_TOTAL_BYTES
    requires path in disk.tree && disk.tree[path] == File([])
    requires TreeBytes(disk.tree) + head.size <= disk.ceiling
    modifies decoder`pos, disk`tree, cancel
    ensures decoder.Valid() && disk.Valid() && cancel.Valid()
    ensures (r == Err(Cancelled) && cancel.raised) || r == Consume(total, e)
    ensures disk.tree == if r.Ok? then old(disk.tree)[path := File(e.body)] else old(disk.tree) - {path}
    ensures r.Ok? ==> decoder.pos == old(decoder.pos) + head.size
  {
    ghost var before, from := disk.tree, decoder.pos;
    var memory;
    r, memory := StreamExact(decoder, head.size, ToFile(path), disk, total, cancel);
    ghost var got := decoder.data[from..decoder.pos];
    assert [] + got == got;
    if r.Err? {
      assert before[path := File(got)] - {path} == before - {path};
      disk.RemoveFile(path);
    } else {
      assert got == e.body;
    }
  }

  /** A directory: counted, joined, its claimed body discarded, then made. */
  method ExtractDir(ghost e: Archive, head: Header, decoder: Decoder, disk: Disk, ghost s: State, name: string,
                    total: nat, count: nat, cancel: CancelFlag)
      returns (r: Outcome<nat>, counted: nat)
    requires AtBody(e, head, decoder) && disk.Valid() && cancel.Valid()
    requires s == State(s.pending, count, total, disk.tree) && name == EntryName(e, s)
    requires total <= MAX_TOTAL_BYTES
    modifies decoder`pos, disk`tree, cancel
    ensures decoder.Valid() && disk.Valid() && cancel.Valid()
    ensures if r == Err(Cancelled) then cancel.raised && disk.tree == s.tree
            else
              match ApplyDir(e, s)
              case Halt(fault, t) => r == Err(fault) && disk.tree == t
              case Go(next) =>
                && r == Ok(next.total) && counted == next.count && disk.tree == next.tree
                && decoder.pos == old(decoder.pos) + head.size
  {
    counted := count + 1;
    if counted > MAX_FILE_COUNT {
      return Err(PayloadTooLarge), counted;
    }
    var joined := SafeJoin(name);
    if joined.Err? {
      return Err(joined.fault), counted;
    }
    ResolvedIsContained(name);
    r := Discard(e, head, decoder, disk, total, cancel);
    if r.Err? {
      return;
    }
    var made := disk.CreateDirAll(joined.value);
    if made.Err? {
      return Err(made.fault), counted;
    }
  }

  /** `discard_exact`. */
  method Discard(ghost e: Archive, head: Header, decoder: Decoder, disk: Disk, total: nat, cancel: CancelFlag)
      returns (r: Outcome<nat>)
    requires AtBody(e, head, decoder) && disk.Valid() && cancel.Valid() && total <= MAX_TOTAL_BYTES
    modifies decoder`pos, disk`tree, cancel
    ensures decoder.Valid() && disk.Valid() && cancel.Valid() && disk.tree == old(disk.tree)
    ensures (r == Err(Cancelled) && cancel.raised) || r == Consume(total, e)
    ensures r.Ok? ==> decoder.pos == old(decoder.pos) + head.size
  {
    var memory;
    r, memory := StreamExact(decoder, head.size, ToSink, disk, total, cancel);
  }

  /** `read_meta_body`. */
  method ReadMetaBody(ghost e: Archive, head: Header, decoder: Decoder, disk: Disk, total: nat, cancel: CancelFlag)
      returns (r: Outcome<nat>, body: seq<byte>)
    requires AtBody(e, head, decoder) && disk.Valid() && cancel.Valid() && total <= MAX_TOTAL_BYTES
    modifies decoder`pos, disk`tree, cancel
    ensures decoder.Valid() && disk.Valid() && cancel.Valid() && disk.tree == old(disk.tree)
    ensures (r == Err(Cancelled) && cancel.raised) || r == ConsumeMeta(total, e)
    ensures r.Ok? ==> body == e.body && decoder.pos == old(decoder.pos) + e.head.size
  {
    if head.size > MAX_META_BYTES {
      return Err(PayloadTooLarge), [];
    }
    r, body := StreamExact(decoder, head.size, ToMemory, disk, total, cancel);
  }

  /** A GNU long name or a pax header: its body may name the next entry. */
  method ExtractMeta(ghost e: Archive, head: Header, decoder: Decoder, disk: Disk,
                     pending: Option<string>, total: nat, cancel: CancelFlag)
      returns (r: Outcome<nat>, name: Option<string>)
    requires AtBody(e, head, decoder) && disk.Valid() && cancel.Valid() && total <= MAX_TOTAL_BYTES
    requires head.flag == LONG_NAME || head.flag == PAX
    modifies decoder`pos, disk`tree, cancel
    ensures decoder.Valid() && disk.Valid() && cancel.Valid() && disk.tree == old(disk.tree)
    ensures (r == Err(Cancelled) && cancel.raised) || r == ConsumeMeta(total, e)
    ensures r.Ok? ==> decoder.pos == old(decoder.pos) + head.size
    ensures r.Ok? ==> name == if head.flag == LONG_NAME then Some(TrimNuls(DecodeLossy(e.body)))
                              else if PaxPath(e.body).Some? then PaxPath(e.body) else pending
  {
    var body;
    name := pending;
    r, body := ReadMetaBody(e, head, decoder, disk, total, cancel);
    if r.Ok? {
      if head.flag == LONG_NAME {
        name := Some(TrimNuls(DecodeLossy(body)));
      } else {
        var p := ReadPaxPath(body);
        if p.Some? {
          name := p;
        }
      }
    }
  }

  /** The match on the type flag. */
  method ExtractEntry(ghost e: Archive, head: Header, decoder: Decoder, disk: Disk,
                      pending: Option<string>, count: nat, total: nat, cancel: CancelFlag)
      returns (r: Outcome<nat>, name: Option<string>, counted: nat)
    requires AtBody(e, head, decoder) && disk.Valid() && cancel.Valid()
    requires total <= MAX_TOTAL_BYTES
    requires 2 * TreeBytes(disk.tree) + 2 * MAX_TOTAL_BYTES <= 2 * disk.ceiling + total
    modifies decoder`pos, disk`tree, cancel
    ensures decoder.Valid() && disk.Valid() && cancel.Valid()
    ensures var s := State(pending, count, total, old(disk.tree));
            if r == Err(Cancelled) then cancel.raised && disk.tree == Interrupted(e, s)
            else
              match Apply(e, s)
              case Halt(fault, t) => r == Err(fault) && disk.tree == t
              case Go(next) =>
                && r.Ok? && next == State(name, counted, r.value, disk.tree)
                && decoder.pos == old(decoder.pos) + head.size
  {
    ghost var s := State(pending, count, total, disk.tree);
    var flag := head.flag;
    name, counted := pending, count;
    if flag == LONG_NAME || flag == PAX {
      r, name := ExtractMeta(e, head, decoder, disk, pending, total, cancel);
    } else if flag == PAX_GLOBAL {
      r := Discard(e, head, decoder, disk, total, cancel);
    } else if IsFileFlag(flag) {
      var full := ResolveName(pending, head.name, head.prefix);
      name := None;
      var admitted := AdmitFile(full, head.size, total, count);
      r, counted := ExtractFile(e, head, decoder, disk, s, admitted, total, count, cancel);
    } else if flag == DIRECTORY {
      var full := ResolveName(pending, head.name, head.prefix);
      name := None;
      r, counted := ExtractDir(e, head, decoder, disk, s, full, total, count, cancel);
    } else if IsLinkFlag(flag) {
      r := Err(Internal(LinkEntry));
    } else {
      r := Discard(e, head, decoder, disk, total, cancel);
      name := None;
    }
  }

  /** Record padding, byte by byte. */
  method SkipPadding(decoder: Decoder, size: nat) returns (r: Outcome<()>)
    requires decoder.Valid()
    modifies decoder`pos
    ensures decoder.Valid()
    ensures if old(decoder.pos) + Pad(size) <= |decoder.data|
            then r == Ok(()) && decoder.pos == old(decoder.pos) + Pad(size)
            else r == Err(Internal(if decoder.corrupt then GzipDecode else Truncated))
  {
    var padding: nat := Pad(size);
    var one := new byte[1];
    while padding > 0
      invariant decoder.Valid() && padding <= Pad(size)
      invariant decoder.pos == old(decoder.pos) + (Pad(size) - padding)
    {
      var got := decoder.Read(one, 0, 1);
      match got
      case Failed =>
        return Err(Internal(GzipDecode));
      case Got(n) =>
        if n == 0 {
          return Err(Internal(Truncated));
        }
        padding := padding - 1;
    }
    return Ok(());
  }

  // ---- the whole archive ------------------------------------------------------------

  /** The header fields the walker looks at. */
  method ParseBlock(block: seq<byte>) returns (r: Block)
    requires |block| == BLOCK
    ensures r == ReadBlock(block)
  {
    if AllZero(block) {
      return Last;
    }
    var name := CStr(block[..100]);
    var size := ParseSize(block[124..136]);
    if size.Err? {
      return Unreadable;
    }
    return Describes(Header(name, size.value, block[156], CStr(block[345..500])));
  }

  /** The next header block, or the end of the archive. */
  method NextHeader(read: Reader, decoder: Decoder, block: array<byte>) returns (r: Outcome<Option<Header>>)
    requires decoder.Valid() && block.Length == BLOCK
    modifies decoder`pos, block
    ensures decoder.Valid()
    ensures var e := Cut(read, decoder.data, decoder.corrupt, old(decoder.pos));
            match r
            case Err(fault) => e.Broken? && fault == Internal(e.why)
            case Ok(None) => e == End
            case Ok(Some(head)) =>
              decoder.pos == old(decoder.pos) + BLOCK && AtBody(e, head, decoder) && Followed(read, e, decoder)
  {
    var filled := FillBlock(decoder, block);
    if filled.Err? {
      return Err(filled.fault);
    }
    if !filled.value {
      return Ok(None);
    }
    match read(block[..])
    case Last => return Ok(None);
    case Unreadable => return Err(Internal(BadOctal));
    case Describes(head) => return Ok(Some(head));
  }

  /** One entry and its padding: either the replay ends here, or it goes on from
      the next block boundary. */
  method Advance(ghost e: Archive, head: Header, decoder: Decoder, disk: Disk,
                 pending: Option<string>, count: nat, total: nat, cancel: CancelFlag, ghost base: nat)
      returns (r: Outcome<nat>, name: Option<string>, counted: nat)
    requires AtBody(e, head, decoder) && disk.Valid() && cancel.Valid()
    requires Sound(State(pending, count, total, disk.tree), base)
    requires disk.ceiling == base + MAX_TOTAL_BYTES
    modifies decoder`pos, disk`tree, cancel
    ensures decoder.Valid() && disk.Valid() && cancel.Valid()
    ensures var s := State(pending, count, total, old(disk.tree));
            match r
            case Ok(t) =>
              && Sound(State(name, counted, t, disk.tree), base)
              && decoder.pos == old(decoder.pos) + head.size + Pad(head.size)
              && Apply(e, s) == Go(State(name, counted, t, disk.tree)) && e.cut.None?
            case Err(fault) =>
              if fault == Cancelled then cancel.raised && disk.tree == Interrupted(e, s)
              else Ended(Err(fault), disk.tree) == Replay(e, s)
  {
    ghost var s := State(pending, count, total, disk.tree);
    ApplyKeepsSound(e, s, base);
    ghost var step := Apply(e, s);
    r, name, counted := ExtractEntry(e, head, decoder, disk, pending, count, total, cancel);
    if r.Err? {
      return;
    }
    assert step == Go(State(name, counted, r.value, disk.tree));
    var padded := SkipPadding(decoder, head.size);
    if padded.Err? {
      r := Err(padded.fault);
    }
  }

  datatype Turn = Finished | Next | Stopped(fault: Fault)

  /** From a header to the next one. */
  method Proceed(read: Reader, ghost a: Archive, head: Header, decoder: Decoder, disk: Disk,
                 pending: Option<string>, count: nat, total: nat, cancel: CancelFlag, ghost base: nat)
      returns (turn: Turn, name: Option<string>, counted: nat, charged: nat, ghost blocks: nat)
    requires AtBody(a, head, decoder) && Followed(read, a, decoder) && disk.Valid() && cancel.Valid()
    requires Sound(State(pending, count, total, disk.tree), base)
    requires disk.ceiling == base + MAX_TOTAL_BYTES
    modifies decoder`pos, disk`tree, cancel
    ensures decoder.Valid() && disk.Valid() && cancel.Valid() && turn != Finished
    ensures var s := State(pending, count, total, old(disk.tree));
            match turn
            case Finished => true
            case Stopped(fault) =>
              if fault == Cancelled then cancel.raised && disk.tree == Interrupted(a, s)
              else Replay(a, s) == Ended(Err(fault), disk.tree)
            case Next =>
              var next := State(name, counted, charged, disk.tree);
              && Sound(next, base) && a.cut.None? && a.rest == Cut(read, decoder.data, decoder.corrupt, decoder.pos)
              && Apply(a, s) == Go(next) && decoder.pos == old(decoder.pos) + BLOCK * blocks
  {
    charged, blocks := total, 0;
    var taken;
    taken, name, counted := Advance(a, head, decoder, disk, pending, count, total, cancel, base);
    if taken.Err? {
      return Stopped(taken.fault), name, counted, charged, 0;
    }
    PadFillsBlocks(head.size);
    return Next, name, counted, taken.value, Blocks(head.size);
  }

  /** One turn of the extraction loop: the rest of the archive replays from the
      new state exactly as it did from the old one. */
  method Round(read: Reader, decoder: Decoder, disk: Disk, block: array<byte>,
               pending: Option<string>, count: nat, total: nat, cancel: CancelFlag, ghost base: nat)
      returns (turn: Turn, name: Option<string>, counted: nat, charged: nat, ghost blocks: nat)
    requires decoder.Valid() && disk.Valid() && cancel.Valid() && block.Length == BLOCK
    requires Sound(State(pending, count, total, disk.tree), base)
    requires disk.ceiling == base + MAX_TOTAL_BYTES
    modifies decoder`pos, disk`tree, cancel, block
    ensures decoder.Valid() && disk.Valid() && cancel.Valid()
    ensures var a := Cut(read, decoder.data, decoder.corrupt, old(decoder.pos));
            var s := State(pending, count, total, old(disk.tree));
            match turn
            case Finished => Replay(a, s) == Ended(Ok(()), disk.tree)
            case Stopped(fault) =>
              if fault == Cancelled then
                cancel.raised && (disk.tree == s.tree || (a.Entry? && disk.tree == Interrupted(a, s)))
              else Replay(a, s) == Ended(Err(fault), disk.tree)
            case Next =>
              var rest := Cut(read, decoder.data, decoder.corrupt, decoder.pos);
              var next := State(name, counted, charged, disk.tree);
              && Sound(next, base) && a.Entry? && a.cut.None? && a.rest == rest && Apply(a, s) == Go(next)
              && decoder.pos == old(decoder.pos) + BLOCK * blocks && blocks > 0
  {
    name, counted, charged, blocks := pending, count, total, 0;
    var stop := cancel.Poll();
    if stop {
      return Stopped(Cancelled), name, counted, charged, 0;
    }
    ghost var a := Cut(read, decoder.data, decoder.corrupt, decoder.pos);
    var next := NextHeader(read, decoder, block);
    if next.Err? {
      return Stopped(next.fault), name, counted, charged, 0;
    }
    if next.value.None? {
      return Finished, name, counted, charged, 0;
    }
    turn, name, counted, charged, blocks :=
      Proceed(read, a, next.value.value, decoder, disk, pending, count, total, cancel, base);
    blocks := blocks + 1;
  }

  /** The head of the extraction loop: `k` entries were applied to `from`, the rest
      of the archive starts at `pos`, and the total is exactly twice the file bytes
      plus all other bodies so far. */
  ghost predicate AtHead(read: Reader, decoder: Decoder, from: State, base: nat, k: nat, now: State)
    requires decoder.Valid()
    reads decoder
  {
    var all := Cut(read, decoder.data, decoder.corrupt, 0);
    && Sound(now, base) && After(all, from, k) == Some(now)
    && Rest(all, k) == Cut(read, decoder.data, decoder.corrupt, decoder.pos)
    && now.total == from.total + 2 * FileBytes(all, k) + OtherBytes(all, k)
    && now.count == from.count + Entries(all, k)
  }

  /** A turn from one loop head to the next, or to the end of the extraction. */
  method Lap(read: Reader, decoder: Decoder, disk: Disk, block: array<byte>, pending: Option<string>, count: nat,
             total: nat, cancel: CancelFlag, ghost base: nat, ghost from: State, ghost k: nat)
      returns (turn: Turn, name: Option<string>, counted: nat, charged: nat)
    requires decoder.Valid() && disk.Valid() && cancel.Valid() && block.Length == BLOCK
    requires Sound(from, base) && AtHead(read, decoder, from, base, k, State(pending, count, total, disk.tree))
    requires disk.ceiling == base + MAX_TOTAL_BYTES
    modifies decoder`pos, disk`tree, cancel, block
    ensures decoder.Valid() && disk.Valid() && cancel.Valid()
    ensures var all := Cut(read, decoder.data, decoder.corrupt, 0);
            match turn
            case Finished => Replay(all, from) == Ended(Ok(()), disk.tree)
            case Stopped(fault) =>
              if fault == Cancelled then cancel.raised && StopsAt(all, from, k, disk.tree)
              else Replay(all, from) == Ended(Err(fault), disk.tree)
            case Next =>
              && AtHead(read, decoder, from, base, k + 1, State(name, counted, charged, disk.tree))
              && decoder.pos > old(decoder.pos)
  {
    ghost var all, now := Cut(read, decoder.data, decoder.corrupt, 0), State(pending, count, total, disk.tree);
    ReplayAfter(all, from, k);
    ghost var blocks;
    turn, name, counted, charged, blocks := Round(read, decoder, disk, block, pending, count, total, cancel, base);
    if turn == Next {
      HeadNext(all, from, base, k, now, State(name, counted, charged, disk.tree));
    }
  }

  /** The loop over the archive; `k` entries were passed when it ended. */
  method Walk(read: Reader, decoder: Decoder, disk: Disk, cancel: CancelFlag)
      returns (r: Outcome<()>, ghost k: nat)
    requires decoder.Valid() && decoder.pos == 0
    requires disk.Valid() && disk.ceiling == TreeBytes(disk.tree) + MAX_TOTAL_BYTES
    requires cancel.Valid()
    modifies decoder`pos, disk`tree, cancel
    ensures disk.Valid()
    ensures var all, from := Cut(read, decoder.data, decoder.corrupt, 0), Start(old(disk.tree));
            if r == Err(Cancelled) then cancel.raised && StopsAt(all, from, k, disk.tree)
            else Ended(r, disk.tree) == Replay(all, from)
    ensures cancel.Valid()
  {
    ghost var base, from := TreeBytes(disk.tree), Start(disk.tree);
    var pending: Option<string> := None;
    var count: nat, total: nat := 0, 0;
    var block := new byte[BLOCK];
    k := 0;
    while true
      invariant decoder.Valid() && disk.Valid() && cancel.Valid()
      invariant AtHead(read, decoder, from, base, k, State(pending, count, total, disk.tree))
      decreases |decoder.data| - decoder.pos
    {
      var turn;
      turn, pending, count, total := Lap(read, decoder, disk, block, pending, count, total, cancel, base, from, k);
      match turn
      case Finished => return Ok(()), k;
      case Stopped(fault) => return Err(fault), k;
      case Next => k := k + 1;
    }
  }

  /** Cancelled or not, an extraction leaves complete files within the cap. */
  lemma EndLeavesWholeFiles(all: Archive, initial: Tree, cancelled: bool, t: Tree)
    requires Trimmable(all)
    requires if cancelled then exists k: nat :: StopsAt(all, Start(initial), k, t) else t == Replay(all, Start(initial)).tree
    ensures FilesFrom(t, Bodies(all) + Stored(initial)) && FilesWithin(t, Stored(initial))
  {
    var bodies := Bodies(all) + Stored(initial);
    BodiesAreCapped(all);
    if cancelled {
      var k: nat :| StopsAt(all, Start(initial), k, t);
      StopLeavesWholeFiles(all, Start(initial), k, t, bodies);
    } else {
      ReplayLeavesWholeFiles(all, Start(initial), bodies);
    }
  }

  /** Some loop head stands before a hard or symbolic link. */
  ghost predicate MeetsLink(a: Archive, s: State) {
    exists k: nat :: After(a, s, k).Some? && Rest(a, k).Entry?
                     && (Rest(a, k).head.flag == 0x31 || Rest(a, k).head.flag == 0x32)
  }

  lemma EndKnowsLinks(a: Archive, s: State)
    ensures Replay(a, s).result.Ok? ==> NoLinkEntry(a)
    ensures MeetsLink(a, s) ==> Replay(a, s).result == Err(Internal(LinkEntry))
  {
    if Replay(a, s).result.Ok? {
      SuccessHasNoLinks(a, s);
    }
    if MeetsLink(a, s) {
      var k: nat :| After(a, s, k).Some? && Rest(a, k).Entry?
                    && (Rest(a, k).head.flag == 0x31 || Rest(a, k).head.flag == 0x32);
      LinkIsRefused(a, s, k);
    }
  }

  /** `extract_tarball_with_cancel`. For every schedule of short reads, unless it
      is cancelled the extraction ends with exactly the outcome and the tree of the
      positional reading; a cancelled one has the tree of some loop head, or of the
      next entry given up. Cancelled or not, the directory stays valid, every file
      in it is complete and within the file cap or was there before, and at most one
      chunk is streamed after the flag rose. An archive with a link never succeeds, and
      one whose link is reached is refused for it. */
  method ExtractTarball(decoder: Decoder, disk: Disk, cancel: CancelFlag) returns (r: Outcome<()>)
    requires decoder.Valid() && decoder.pos == 0
    requires disk.Valid() && disk.ceiling == TreeBytes(disk.tree) + MAX_TOTAL_BYTES
    requires cancel.Valid()
    modifies decoder`pos, disk`tree, cancel
    ensures disk.Valid()
    ensures var all, from := Cut(ReadBlock, decoder.data, decoder.corrupt, 0), Start(old(disk.tree));
            if r == Err(Cancelled) then cancel.raised && exists k: nat :: StopsAt(all, from, k, disk.tree)
            else Ended(r, disk.tree) == Replay(all, from)
    ensures FilesFrom(disk.tree, Bodies(Cut(ReadBlock, decoder.data, decoder.corrupt, 0)) + Stored(old(disk.tree)))
    ensures FilesWithin(disk.tree, Stored(old(disk.tree)))
    ensures r.Ok? ==> NoLinkEntry(Cut(ReadBlock, decoder.data, decoder.corrupt, 0))
    ensures MeetsLink(Cut(ReadBlock, decoder.data, decoder.corrupt, 0), Start(old(disk.tree))) && r != Err(Cancelled) ==>
              r == Err(Internal(LinkEntry))
    ensures cancel.Valid() && cancel.late <= 65_536
  {
    ghost var all, initial := Cut(ReadBlock, decoder.data, decoder.corrupt, 0), disk.tree;
    ghost var k;
    r, k := Walk(ReadBlock, decoder, disk, cancel);
    EndLeavesWholeFiles(all, initial, r == Err(Cancelled), disk.tree);
    if r != Err(Cancelled) {
      EndKnowsLinks(all, Start(initial));
    }
  }
}
