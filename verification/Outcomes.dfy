/** What single calls on a replica amount to: which are accepted, what they add, and how versions move. */
module Outcomes {
  import opened Base
  import opened TopK
  import opened Sum
  import opened Protocol
  import opened Pipeline
  import opened Recovery

  // ---------------------------------------------------------------- local updates

  /** An increment is accepted exactly when it is positive and fits; the delta carries the new total of the node alone,
      under the next version and the next sequence. */
  lemma SumIssuedExactly(r: Replica, x: int)
    requires r.deltaSeq < MAX_U64 && r.sum.version < MAX_U64
    ensures var own := Get(r.sum.contrib, r.nodeId);
            var a := IssueLocal(r, SumUpdate(x));
            && (a.Issued? <==> 0 < x && own + x <= MAX_U64)
            && (!a.Issued? ==> a.Refused?)
            && (a.Issued? ==>
                  && a.delta == StateDelta(SUM, r.sum.version + 1, r.nodeId, r.deltaSeq + 1, SumBody(r.nodeId, own + x))
                  && a.replica.sum.version == r.sum.version + 1 && a.replica.deltaSeq == r.deltaSeq + 1
                  && a.replica.topk == r.topk && a.replica.nodeId == r.nodeId && a.replica.kmax == r.kmax
                  && forall k: NodeId :: Get(a.replica.sum.contrib, k) == if k == r.nodeId then own + x else Get(r.sum.contrib, k))
  {
  }

  /** A candidate is refused exactly when it is invalid under the node's own name, and makes no difference exactly when it
      is held or outranked already. */
  lemma TopIssuedExactly(r: Replica, candidate: Candidate)
    requires ReplicaValid(r) && r.deltaSeq < MAX_U64 && r.topk.version < MAX_U64
    ensures var c := Candidate(candidate.itemId, candidate.score, candidate.eventTs, r.nodeId);
            var a := IssueLocal(r, TopUpdate(candidate));
            && (a.Refused? <==> !ValidCandidate(c))
            && (a.Unchanged? <==> ValidCandidate(c) && Covers(r.topk.candidates, c, r.kmax))
            && (a.Issued? ==>
                  && a.delta == StateDelta(TOPK, r.topk.version + 1, r.nodeId, r.deltaSeq + 1, TopBody(c))
                  && c in a.replica.topk.candidates && a.replica.topk.version == r.topk.version + 1
                  && a.replica.deltaSeq == r.deltaSeq + 1 && a.replica.sum == r.sum)
  {
    var c := candidate.(origin := r.nodeId);
    MergeUnchanged(r.topk.candidates, [c], r.kmax);
    if c !in MergeTop(r.topk.candidates, [c], r.kmax) {
      LeftOutWasCovered(r.topk.candidates, c, r.kmax);
    }
  }

  /** A candidate that does not get in was held out by the list as it stood. */
  lemma LeftOutWasCovered(l: seq<Candidate>, c: Candidate, k: nat)
    requires Ranked(l) && |l| <= k && k > 0 && c !in MergeTop(l, [c], k)
    ensures Covers(l, c, k)
  {
    var m := MergeTop(l, [c], k);
    CanonicalIsTop(l + [c], k);
    assert c in Elems(l + [c]) && Covers(m, c, k);
    forall x | x in Elems(m) ensures x in Elems(l) {
      assert x in m && x in Elems(l + [c]) && x in l + [c];
    }
    hide MergeTop, Canonical, Better;
    RankedElems(m);
    RankedElems(l);
    SubsetCardinality(Elems(m), Elems(l));
    RankedUnique(m, l);
  }

  // ---------------------------------------------------------------- versions

  /** A merge leaves the larger of the two versions, and goes one above both when contents changed; at 2^64-1 it wraps. */
  predicate VersionMoves(was: U64, peer: U64, changed: bool, now: U64) {
    if !changed then now >= was && now >= peer && (now == was || now == peer)
    else if was < MAX_U64 && peer < MAX_U64 then
      now > was && now > peer && (now == was + 1 || now == peer + 1)
    else now == 0
  }

  /** A received delta brings its version along, even when it is no news. */
  lemma ReceiveVersion(r: Replica, d: StateDelta)
    requires ReplicaValid(r) && Receive(r, d).ok
    ensures var a := Receive(r, d);
            && (a.advanced <==> !SameContents(r, a.replica))
            && (d.kind == SUM ==>
                  VersionMoves(r.sum.version, d.version, a.advanced, a.replica.sum.version) && a.replica.topk == r.topk)
            && (d.kind == TOPK ==> a.replica.sum == r.sum && DecodeTopDelta(d).Some?)
            && (d.kind == TOPK && ValidCandidate(DecodeTopDelta(d).value) ==>
                  VersionMoves(r.topk.version, d.version, a.advanced, a.replica.topk.version))
  {
    ReceiveGrows(r, d);
    if Receive(r, d).advanced {
      AdvancedDiffers(r, DeltaRecord(d));
    }
  }

  /** So the receiver's digest never calls for a snapshot because of the version it has just merged. */
  lemma ReceivedVersionIsCovered(r: Replica, d: StateDelta, sum: Checksum)
    requires ReplicaValid(r) && Receive(r, d).ok && d.version < MAX_U64
    requires d.kind == SUM ==> r.sum.version < MAX_U64
    requires d.kind == TOPK ==> r.topk.version < MAX_U64 && DecodeTopDelta(d).Some? && ValidCandidate(DecodeTopDelta(d).value)
    ensures var own := DigestOf(Receive(r, d).replica);
            && (d.kind == SUM ==> own.sum.version >= d.version)
            && (d.kind == TOPK ==> own.topk.version >= d.version)
            && (d.kind == SUM && Receive(r, d).advanced ==> !DigestNeedsSnapshot(own.sum, AggregateDigest(d.version, sum)))
            && (d.kind == TOPK && Receive(r, d).advanced ==> !DigestNeedsSnapshot(own.topk, AggregateDigest(d.version, sum)))
  {
    hide Receive, SameContents, ReplicaValid, ValidCandidate, DecodeTopDelta;
    ReceiveVersion(r, d);
  }

  /** A snapshot brings the version of each aggregate that it carries, and leaves the other aggregate alone. */
  lemma SnapshotVersion(r: Replica, s: SnapshotResp)
    requires MergeSnapshot(r, s).ok
    ensures var m := MergeSnapshot(r, s).replica;
            && (s.sumState.Absent? ==> m.sum == r.sum) && (s.topkState.Absent? ==> m.topk == r.topk)
            && (s.sumState.Present? ==>
                  VersionMoves(r.sum.version, s.sumState.payload.version, SumNews(r, s.sumState), m.sum.version))
            && (s.topkState.Present? ==>
                  VersionMoves(r.topk.version, s.topkState.payload.version, TopNews(r, s.topkState), m.topk.version))
            && m.deltaSeq == Max64(r.deltaSeq, Get(s.sequences, r.nodeId))
  {
  }

  /** Only the node's own deltas move its sequence, and never down. */
  lemma ReceiveSequence(r: Replica, d: StateDelta)
    requires Receive(r, d).ok
    ensures Receive(r, d).replica.deltaSeq == if d.origin == r.nodeId then Max64(r.deltaSeq, d.sequence) else r.deltaSeq
  {
  }

  // ---------------------------------------------------------------- what is refused, what is told

  /** A delta that speaks for another node than its origin is refused without effect, and never served on. */
  lemma ForgedOriginRefused(r: Replica, d: StateDelta)
    requires d.origin != ""
    requires (d.kind == SUM && d.body.SumBody? && d.body.node != d.origin)
             || (d.kind == TOPK && d.body.TopBody? && d.body.candidate.origin != d.origin)
    ensures !Receive(r, d).ok && Receive(r, d).replica == r && !ValidRecoveredDelta(d)
  {
  }

  /** A recovered delta is let in exactly when it is numbered, names a valid origin, and its payload is of its kind and
      speaks for that origin. */
  lemma RecoveredExactly(d: StateDelta)
    ensures ValidRecoveredDelta(d) <==>
              && ValidNodeId(d.origin) && d.sequence > 0
              && ((d.kind == SUM && d.body.SumBody? && d.body.node == d.origin)
                  || (d.kind == TOPK && d.body.TopBody? && d.body.candidate.origin == d.origin))
  {
  }

  /** A snapshot holds exactly what was wanted, whole, with the node's own sequence when it has one. */
  lemma SnapshotCarries(r: Replica, want: seq<Kind>)
    requires want != [] && forall k :: k in want ==> k == SUM || k == TOPK
    ensures SnapshotOf(r, want).Some?
    ensures var s := SnapshotOf(r, want).value;
            && s.sumState == (if SUM in want then Present(r.sum) else Absent)
            && s.topkState == (if TOPK in want then Present(r.topk) else Absent)
            && (SUM in want ==> s.version >= r.sum.version) && (TOPK in want ==> s.version >= r.topk.version)
            && (forall o :: o in s.sequences <==> o == r.nodeId && r.deltaSeq > 0)
            && Get(s.sequences, r.nodeId) == r.deltaSeq
  {
    assert forall i :: 0 <= i < |want| ==> want[i] in want;
  }

  /** Digests tell states apart. */
  lemma DigestDistinguishes(a: Replica, b: Replica)
    ensures DigestOf(a).sum == DigestOf(b).sum <==> a.sum == b.sum
    ensures DigestOf(a).topk == DigestOf(b).topk <==> a.topk == b.topk
    ensures Get(DigestOf(a).sequences, a.nodeId) == a.deltaSeq
  {
  }

  /** The aggregates of a digest comparison are asked for when the peer is ahead, or level with other contents. */
  lemma SnapshotWanted(local: StateDigest, peer: StateDigest)
    requires !local.sum.checksum.NoChecksum? && !peer.sum.checksum.NoChecksum?
    requires !local.topk.checksum.NoChecksum? && !peer.topk.checksum.NoChecksum?
    ensures var want := AggregatesNeedingSnapshot(local, peer);
            && (SUM in want <==> peer.sum.version > local.sum.version
                                 || (peer.sum.version == local.sum.version && peer.sum.checksum != local.sum.checksum))
            && (TOPK in want <==> peer.topk.version > local.topk.version
                                  || (peer.topk.version == local.topk.version && peer.topk.checksum != local.topk.checksum))
            && OtherKind !in want
  {
  }
}
