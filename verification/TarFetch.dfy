/** Unpacking a downloaded repository: extraction into a fresh directory, then its
    inventory (backend/src/agents/fetch.rs:249-253). */
module TarFetch {
  import opened Text
  import opened TarFormat
  import opened TarDisk
  import opened TarArchive
  import opened TarExtract
  import opened TarSnapshot
  import opened TarRoundTrip

  /** What the positional reading makes of a stream, in an empty directory. */
  function Reading(read: Reader, data: seq<byte>, corrupt: bool): Ended {
    Replay(Cut(read, data, corrupt, 0), Start(EMPTY))
  }

  method ExtractFresh(read: Reader, data: seq<byte>, corrupt: bool, cancel: CancelFlag)
      returns (r: Outcome<()>, tree: Tree)
    requires cancel.Valid()
    modifies cancel
    ensures cancel.Valid()
    ensures (r == Err(Cancelled) && cancel.raised) || Ended(r, tree) == Reading(read, data, corrupt)
  {
    EmptyIsSound();
    var decoder := new Decoder(data, corrupt);
    var disk := new Disk(EMPTY);
    ghost var k;
    r, k := Walk(read, decoder, disk, cancel);
    tree := disk.tree;
  }

  /** Only the extraction can fail: a tree it produced always passes the
      inventory's own caps, and is reported exactly. */
  method Unpack(read: Reader, data: seq<byte>, corrupt: bool, cancel: CancelFlag)
      returns (r: Outcome<Summary>, tree: Tree)
    requires cancel.Valid()
    modifies cancel
    ensures cancel.Valid()
    ensures match r
            case Ok(summary) =>
              && Reading(read, data, corrupt) == Ended(Ok(()), tree)
              && summary == Summary(|Files(tree)|, TreeBytes(tree)) && 2 * summary.bytes <= MAX_TOTAL_BYTES
            case Err(fault) =>
              (fault == Cancelled && cancel.raised) || Reading(read, data, corrupt).result == Err(fault)
  {
    var extracted;
    extracted, tree := ExtractFresh(read, data, corrupt, cancel);
    if extracted.Err? {
      return Err(extracted.fault), tree;
    }
    assert extracted.value == ();
    SnapshotAcceptsExtraction(read, data, corrupt);
    r := SnapshotRepo(tree);
  }

  /** A written stream unpacks to the items it was written from. */
  method UnpackWritten(plans: seq<Plan>, ending: seq<byte>, corrupt: bool, cancel: CancelFlag)
      returns (r: Outcome<Summary>, tree: Tree)
    requires (forall p :: p in plans ==> Planned(p)) && PrefixFree(Items(plans)) && Closes(ending, corrupt)
    requires |plans| <= MAX_FILE_COUNT && StreamCost(plans) <= MAX_TOTAL_BYTES && cancel.Valid()
    modifies cancel
    ensures (r == Err(Cancelled) && cancel.raised) || (r.Ok? && tree == Expected(Items(plans)))
  {
    RoundTrip(plans, ending, corrupt);
    r, tree := Unpack(ReadBlock, StreamBytes(plans) + ending, corrupt, cancel);
  }
}
