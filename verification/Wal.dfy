/** The open journal: append, and compaction through a temporary file and a rename. */
module Wal {
  import opened Types
  import opened Framing
  import opened Frames
  import J = Journal

  /** The first step of opening a journal that fails, if any. */
  datatype OpenFault =
    | Opens | OpenFails | Reading(read: ReadFault) | TruncateFails | SeekTailFails

  /** The first input or output operation of a compaction that fails, if any. */
  datatype IoFault =
    | NoFault | ReadLog(read: ReadFault)
    | OpenTemp | WriteTemp(n: nat) | SyncTemp | CloseTemp | CloseLog | Rename | Reopen

  lemma FileSnoc(c: Codec, rs: seq<Record>, r: Record)
    requires AllFit(c, rs) && c.Fits(r)
    ensures AllFit(c, rs + [r]) && File(c, rs + [r]) == File(c, rs) + Frame(c, c.enc(r))
  {
    var more := rs + [r];
    assert forall i :: 0 <= i < |more| ==> c.Fits(more[i]);
    var fs := seq(|more|, i requires 0 <= i < |more| => Frame(c, c.enc(more[i])));
    assert fs[..|rs|] == seq(|rs|, i requires 0 <= i < |rs| => Frame(c, c.enc(rs[i])));
  }

  /** Every open lease can be written back. */
  ghost predicate CanWrite(c: Codec, live: J.LiveMap) {
    forall id :: id in live ==> c.Fits(live[id])
  }

  lemma Truncated(c: Codec, disk: Bytes)
    ensures Replay(c, disk[..Replay(c, disk).good]) == Replay(c, disk)
  {
    TruncationIdempotent(ScannerOf(c), disk);
  }

  class Log {
    const codec: Codec
    var file: Bytes
    var temp: Option<Bytes>
    var open: bool
    var offset: nat
    var recovered: seq<Record>
    ghost var records: seq<Record>

    /** The journal replays to `records`, and every byte of it belongs to one of them. */
    ghost predicate Valid() reads this {
      codec.Valid() && Replay(codec, file) == Replayed(records, |file|)
    }

    /** A journal of trusted bytes only, positioned at its end. */
    constructor (codec: Codec, file: Bytes, replayed: seq<Record>)
      requires codec.Valid() && Replay(codec, file) == Replayed(replayed, |file|)
      ensures Valid() && this.codec == codec && this.file == file && open
      ensures records == replayed && recovered == replayed && offset == |file| && temp == None
    {
      this.codec := codec;
      this.file, temp, open, offset := file, None, true, |file|;
      recovered, records := replayed, replayed;
    }

    /**
     Replays whatever is on disk and truncates the tail that cannot be trusted.
     Whichever step fails, what is left on disk replays to the same records.
     */
    static method Open(codec: Codec, disk: Bytes, fault: OpenFault) returns (log: Log?, left: Bytes)
      requires codec.Valid()
      ensures Replay(codec, left) == Replay(codec, disk)
      ensures log == null <==>
        !fault.Opens? && (fault.Reading? ==> ReadFails(disk, Replay(codec, disk), fault.read))
      ensures log != null ==>
        && fresh(log) && log.Valid() && log.codec == codec && log.open
        && log.records == Replay(codec, disk).records && log.recovered == log.records
        && left == disk[..Replay(codec, disk).good] && log.file == left && log.offset == |left|
    {
      hide Replay;
      log, left := null, disk;
      if fault.OpenFails? {
        return;
      }
      var replayed, good, ok := ComputeReplay(codec, disk, if fault.Reading? then fault.read else Sound);
      if !ok || fault.TruncateFails? {
        return;
      }
      Truncated(codec, disk);
      left := disk[..good];
      if fault.SeekTailFails? {
        return;
      }
      log := new Log(codec, left, replayed);
    }

    /** What becomes of an append: a closed handle or an oversized record writes nothing. */
    function Outcome(r: Record, w: Write): Write
      reads this
    {
      if open && codec.Fits(r) then w else Lost
    }

    method Append(r: Record, w: Write) returns (ok: bool)
      requires Valid()
      modifies this`file, this`offset, this`records
      ensures Valid() && ok == (Outcome(r, w) == Durable)
      ensures records == Logged(old(records), r, Outcome(r, w))
      ensures offset == old(offset) + if ok then HEADER + |codec.enc(r)| else 0
      ensures ok <==> open && |codec.enc(r)| <= 8 * 1024 * 1024 && w == Durable
      ensures !open || |codec.enc(r)| > 8 * 1024 * 1024 || w == Lost ==> file == old(file)
      ensures open && |codec.enc(r)| <= 8 * 1024 * 1024 && w != Lost ==> file == old(file) + Frame(codec, codec.enc(r))
    {
      hide Replay;
      if !open || !codec.Fits(r) || w == Lost {
        return false;
      }
      var frame := Frame(codec, codec.enc(r));
      AppendFrame(codec, file, records, r);
      file, records := file + frame, records + [r];
      if w == Unsynced {
        return false;
      }
      offset := offset + |frame|;
      return true;
    }

    /** Writes one frame per open lease to the compaction file; the journal path is not touched. */
    method WriteCompacted(live: J.LiveMap, fault: IoFault)
      returns (written: Option<Bytes>, ghost order: seq<LeaseId>)
      modifies this`temp
      ensures written.None? ==> temp == None
      ensures written.Some? <==> CanWrite(codec, live) && !(fault.WriteTemp? && fault.n < |live|)
      ensures written.Some? ==>
        && temp == written
        && Enumerates(order, live.Keys)
        && AllFit(codec, J.Compacted(live, order))
        && written.value == File(codec, J.Compacted(live, order))
    {
      var bytes: Bytes := [];
      temp, order := Some(bytes), [];
      var todo, n := live.Keys, 0;
      while todo != {}
        invariant todo <= live.Keys && Enumerates(order, live.Keys - todo)
        invariant AllFit(codec, J.Compacted(live, order)) && bytes == File(codec, J.Compacted(live, order))
        invariant temp == Some(bytes)
        invariant n + |todo| == |live| && (fault.WriteTemp? ==> n <= fault.n)
        invariant forall id :: id in live && id !in todo ==> codec.Fits(live[id])
        decreases todo
      {
        var id :| id in todo;
        if !codec.Fits(live[id]) || fault == WriteTemp(n) {
          temp := None;
          return None, order;
        }
        FileSnoc(codec, J.Compacted(live, order), live[id]);
        assert J.Compacted(live, order + [id]) == J.Compacted(live, order) + [live[id]];
        bytes := bytes + Frame(codec, codec.enc(live[id]));
        temp := Some(bytes);
        order := order + [id];
        todo := todo - {id};
        n := n + 1;
      }
      return Some(bytes), order;
    }

    /** The fault is met by a compaction that gets that far. */
    ghost predicate Stops(fault: IoFault) reads this {
      match fault
      case NoFault => false
      case ReadLog(read) => ReadFails(file, Replay(codec, file), read)
      case WriteTemp(n) => n < |J.Live(records)|
      case _ => true
    }

    /**
     Rewrites the journal as one fetch record per open lease. The journal path is
     written once, by the rename, so a crash at any point leaves either the bytes
     before or the bytes after; whichever operation fails or is the last before a
     crash, the journal on disk folds to the same open leases.
     */
    method Compact(fault: IoFault) returns (ok: bool, ghost order: seq<LeaseId>)
      requires Valid()
      modifies this
      ensures Valid() && J.Live(records) == old(J.Live(records))
      ensures ok ==>
        && open && offset == |file| && temp == None
        && Enumerates(order, old(J.Live(records)).Keys)
        && records == J.Compacted(old(J.Live(records)), order)
      ensures !ok && !fault.Reopen? ==> file == old(file) && offset == old(offset)
      ensures !old(open) ==> !ok && !open && file == old(file) && temp == old(temp)
      ensures ok <==> old(open) && CanWrite(codec, old(J.Live(records))) && !old(Stops(fault))
      ensures old(open) && !ok ==>
        (!open <==> CanWrite(codec, old(J.Live(records))) && (fault.CloseLog? || fault.Rename? || fault.Reopen?))
    {
      hide Replay;
      order := [];
      if !open {
        return false, order;
      }
      var replayed, good, read := ComputeReplay(codec, file, if fault.ReadLog? then fault.read else Sound);
      if !read || fault.OpenTemp? {
        return false, order;
      }
      var live := J.ComputeLive(replayed);
      var written;
      written, order := WriteCompacted(live, fault);
      if written.None? {
        return false, order;
      }
      if fault.SyncTemp? || fault.CloseTemp? || fault.CloseLog? {
        open := !fault.CloseLog?;
        temp := None;
        return false, order;
      }
      open := false;
      if fault.Rename? {
        return false, order;
      }
      FileReplay(codec, J.Compacted(live, order));
      J.CompactLive(records, order);
      records := J.Compacted(live, order);
      file, temp := written.value, None;
      if fault.Reopen? {
        return false, order;
      }
      open := true;
      offset := |file|;
      return true, order;
    }
  }
}
