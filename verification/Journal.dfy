/**
 The journal as a list of records, and the fold that gives it meaning: the
 leases still open at its end.
 */
module Journal {
  import opened Types

  type LiveMap = map<LeaseId, Record>

  function Applied(m: LiveMap, r: Record): LiveMap {
    match r.op
    case Fetch => m[r.lease := r]
    case Other(_) => m
    case _ => m - {r.lease}
  }

  function Fold(m: LiveMap, rs: seq<Record>): LiveMap {
    if rs == [] then m else Applied(Fold(m, rs[..|rs| - 1]), rs[|rs| - 1])
  }

  function Live(rs: seq<Record>): LiveMap { Fold(map[], rs) }

  /** Every live entry is a fetch record filed under its own lease ID. */
  ghost predicate Filed(m: LiveMap) {
    forall l :: l in m ==> m[l].op == Fetch && m[l].lease == l
  }

  /** The loop of the source: one pass over the records, updating a map. */
  method ComputeLive(rs: seq<Record>) returns (live: LiveMap)
    ensures live == Live(rs)
  {
    live := map[];
    for i := 0 to |rs|
      invariant live == Live(rs[..i])
    {
      var r := rs[i];
      assert rs[..i + 1][..i] == rs[..i];
      match r.op
      case Fetch => live := live[r.lease := r];
      case Other(_) =>
      case _ => live := live - {r.lease};
    }
    assert rs[..|rs|] == rs;
  }

  lemma LiveSnoc(rs: seq<Record>, r: Record)
    ensures Live(rs + [r]) == Applied(Live(rs), r)
  {
    assert (rs + [r])[..|rs|] == rs;
  }

  lemma {:induction false} FoldConcat(m: LiveMap, a: seq<Record>, b: seq<Record>)
    ensures Fold(m, a + b) == Fold(Fold(m, a), b)
  {
    if b == [] {
      assert a + b == a;
    } else {
      var n := |b| - 1;
      FoldConcat(m, a, b[..n]);
      assert (a + b)[..|a + b| - 1] == a + b[..n];
    }
  }

  lemma {:induction false} LiveFiled(rs: seq<Record>)
    ensures Filed(Live(rs))
  {
    if rs != [] {
      LiveFiled(rs[..|rs| - 1]);
    }
  }

  // ---------- Meaning of the fold, without the fold ----------

  /** Record `i` opens lease `l` and no later record fetches or closes it. */
  ghost predicate OpenAt(rs: seq<Record>, i: int, l: LeaseId) {
    && 0 <= i < |rs|
    && rs[i].op == Fetch && rs[i].lease == l
    && forall j :: i < j < |rs| && rs[j].lease == l ==> rs[j].op.Other?
  }

  /** A lease is live exactly when its last effective record is a fetch, and that record is kept. */
  lemma {:induction false} LiveMeaning(rs: seq<Record>, l: LeaseId)
    ensures l in Live(rs) <==> exists i :: OpenAt(rs, i, l)
    ensures forall i :: OpenAt(rs, i, l) ==> l in Live(rs) && Live(rs)[l] == rs[i]
  {
    if rs != [] {
      var n := |rs| - 1;
      var front, r := rs[..n], rs[n];
      LiveMeaning(front, l);
      if r.lease != l || r.op.Other? {
        forall i | OpenAt(rs, i, l) ensures OpenAt(front, i, l) {}
        forall i | OpenAt(front, i, l) ensures OpenAt(rs, i, l) {}
      } else if r.op == Fetch {
        assert OpenAt(rs, n, l);
        forall i | OpenAt(rs, i, l) ensures i == n {}
      } else {
        forall i ensures !OpenAt(rs, i, l) {}
      }
    }
  }

  // ---------- Compaction ----------

  /** One fetch record per open lease, in the given order. */
  function Compacted(live: LiveMap, order: seq<LeaseId>): (rs: seq<Record>)
    requires forall l :: l in order ==> l in live
    ensures |rs| == |order|
  {
    seq(|order|, i requires 0 <= i < |order| => live[order[i]])
  }

  lemma {:induction false} CompactedFold(live: LiveMap, order: seq<LeaseId>)
    requires Filed(live)
    requires forall l :: l in order ==> l in live
    ensures Live(Compacted(live, order)) == map l | l in live && l in order :: live[l]
  {
    if order != [] {
      var n := |order| - 1;
      var rs := Compacted(live, order);
      assert order == order[..n] + [order[n]];
      assert forall l :: l in order[..n] ==> l in order;
      CompactedFold(live, order[..n]);
      assert rs[..n] == Compacted(live, order[..n]);
      LiveSnoc(rs[..n], rs[n]);
      assert rs == rs[..n] + [rs[n]];
    }
  }

  lemma CompactLive(rs: seq<Record>, order: seq<LeaseId>)
    requires Enumerates(order, Live(rs).Keys)
    ensures Live(Compacted(Live(rs), order)) == Live(rs)
  {
    LiveFiled(rs);
    CompactedFold(Live(rs), order);
  }

  /** Compaction cannot be observed by any later history. */
  lemma CompactionPreservesFuture(rs: seq<Record>, order: seq<LeaseId>, later: seq<Record>)
    requires Enumerates(order, Live(rs).Keys)
    ensures Live(Compacted(Live(rs), order) + later) == Live(rs + later)
  {
    CompactLive(rs, order);
    FoldConcat(map[], Compacted(Live(rs), order), later);
    FoldConcat(map[], rs, later);
  }
}
