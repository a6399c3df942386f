/** Crash recovery: the newest checkpoint plus the journal tail (internal/app, internal/storage, pipeline). */
module Recovery {
  import opened Base
  import opened TopK
  import opened Sum
  import opened Protocol
  import opened Pipeline

  datatype Mutation = DeltaRecord(delta: StateDelta) | SnapshotRecord(snapshot: SnapshotResp)

  datatype Checkpoint = Checkpoint(index: nat, state: SnapshotResp)

  /** What survives a crash: the journaled mutations in order, and the newest checkpoint. */
  datatype Disk = Disk(log: seq<Mutation>, checkpoint: Option<Checkpoint>)

  /** A journal append: done; refused with nothing written; or written, with the error coming from the sync. */
  datatype Append = Done | NotWritten | WrittenNotSynced

  function Write(disk: Disk, m: Mutation, io: Append): Disk {
    if io.NotWritten? then disk else disk.(log := disk.log + [m])
  }

  // ---------------------------------------------------------------- recovery

  /** RestoreCheckpoint on a replica. */
  function Restore(r: Replica, s: SnapshotResp): Attempt {
    if s.sumState.Absent? || s.topkState.Absent? || !SumFragmentOk(s.sumState) then Attempt(false, false, r)
    else
      var r1 := r.(sum := WithOwnEntry(s.sumState.payload, r.nodeId));
      if !TopFragmentOk(s.topkState) then Attempt(false, false, r1)
      else
        var t := TopState(Canonical(s.topkState.payload.candidates, r.kmax), s.topkState.payload.version);
        Attempt(true, true, AdvanceSeq(r1.(topk := t), Get(s.sequences, r.nodeId)))
  }

  function Replay(r: Replica, m: Mutation): Attempt {
    match m
    case DeltaRecord(d) => Receive(r, d)
    case SnapshotRecord(s) => MergeSnapshot(r, s)
  }

  /** The loop of recoverAggregation: stops at the first mutation that fails. */
  function ReplayAll(r: Replica, ms: seq<Mutation>): Option<Replica> {
    if ms == [] then Some(r)
    else
      match ReplayAll(r, ms[..|ms| - 1])
      case None => None
      case Some(r1) => var a := Replay(r1, ms[|ms| - 1]); if a.ok then Some(a.replica) else None
  }

  function Recover(nodeId: NodeId, kmax: nat, disk: Disk): Option<Replica> {
    match disk.checkpoint
    case None => ReplayAll(NewReplica(nodeId, kmax), disk.log)
    case Some(c) =>
      if c.index > |disk.log| then None
      else
        var a := Restore(NewReplica(nodeId, kmax), c.state);
        if a.ok then ReplayAll(a.replica, disk.log[c.index..]) else None
  }

  lemma RecoverAppend(nodeId: NodeId, kmax: nat, disk: Disk, m: Mutation)
    requires Recover(nodeId, kmax, disk).Some?
    ensures var a := Replay(Recover(nodeId, kmax, disk).value, m);
            Recover(nodeId, kmax, disk.(log := disk.log + [m])) == if a.ok then Some(a.replica) else None
  {
    var log := disk.log + [m];
    if disk.checkpoint.Some? {
      var i := disk.checkpoint.value.index;
      assert log[i..] == disk.log[i..] + [m];
      assert log[i..][..|log[i..]| - 1] == disk.log[i..];
    } else {
      assert log[..|log| - 1] == disk.log;
    }
  }

  // ---------------------------------------------------------------- live steps

  datatype Event =
    | Local(update: LocalUpdate, io: Append)
    | Received(delta: StateDelta, io: Append)
    | Snapshot(snapshot: SnapshotResp, io: Append)
    | CheckpointTaken
    | Crash

  datatype Live = Live(replica: Replica, disk: Disk)

  function JournalOf(a: Attempt, m: Mutation, disk: Disk, io: Append): Disk {
    if a.ok && a.advanced then Write(disk, m, io) else disk
  }

  /** One locked Manager call together with what it leaves on disk. */
  function Step(s: Live, e: Event): Live {
    match e
    case Local(u, io) =>
      (match IssueLocal(s.replica, u)
       case Issued(d, r) => Live(if io.Done? then r else s.replica, Write(s.disk, DeltaRecord(d), io))
       case _ => s)
    case Received(d, io) =>
      var a := Receive(s.replica, d);
      Live(Persist(s.replica, a, io.Done?).replica, JournalOf(a, DeltaRecord(d), s.disk, io))
    case Snapshot(x, io) =>
      var a := MergeSnapshot(s.replica, x);
      Live(Persist(s.replica, a, io.Done?).replica, JournalOf(a, SnapshotRecord(x), s.disk, io))
    case CheckpointTaken =>
      (match SnapshotOf(s.replica, [SUM, TOPK])
       case None => s
       case Some(x) => s.(disk := s.disk.(checkpoint := Some(Checkpoint(|s.disk.log|, x)))))
    case Crash =>
      (match Recover(s.replica.nodeId, s.replica.kmax, s.disk)
       case None => s
       case Some(r) => s.(replica := r))
  }

  function Steps(s: Live, es: seq<Event>): Live {
    if es == [] then s else Step(Steps(s, es[..|es| - 1]), es[|es| - 1])
  }

  /** Recovering now would give back the live contents and delta sequence. */
  ghost predicate Exact(s: Live) {
    && ReplicaValid(s.replica)
    && var r := Recover(s.replica.nodeId, s.replica.kmax, s.disk);
       r.Some? && ReplicaValid(r.value) && SameContents(r.value, s.replica) && r.value.deltaSeq == s.replica.deltaSeq
  }

  /** The guard, checkable before the call: no record left behind by a failed sync, no own sequence echoed
      from above without news, no snapshot whose good SUM fragment is followed by a bad TOPK fragment. */
  predicate Durable(r: Replica, e: Event) {
    match e
    case Local(u, io) => IssueLocal(r, u).Issued? ==> !io.WrittenNotSynced?
    case Received(d, io) =>
      if Receive(r, d).advanced then !io.WrittenNotSynced?
      else Receive(r, d).ok && d.origin == r.nodeId ==> d.sequence <= r.deltaSeq
    case Snapshot(x, io) =>
      if MergeSnapshot(r, x).advanced then !io.WrittenNotSynced?
      else if MergeSnapshot(r, x).ok then Get(x.sequences, r.nodeId) <= r.deltaSeq
      else !(SumFragmentOk(x.sumState) && SumNews(r, x.sumState))
    case _ => true
  }

  // ---------------------------------------------------------------- replay agrees with the live call

  lemma SameSumAdvances(a: Contrib, b: Contrib, p: Contrib)
    requires SameSum(a, b)
    ensures SumAdvances(a, p) <==> SumAdvances(b, p)
    ensures SameSum(MergeSum(a, p), MergeSum(b, p))
  {
    forall k: NodeId
      ensures Get(MergeSum(a, p), k) == Get(MergeSum(b, p), k)
    {
      MergeSumMax(a, p, k);
      MergeSumMax(b, p, k);
    }
    if SumAdvances(a, p) {
      var k :| k in p && p[k] > Get(a, k);
      assert k in p && p[k] > Get(b, k);
    }
    if SumAdvances(b, p) {
      var k :| k in p && p[k] > Get(b, k);
      assert k in p && p[k] > Get(a, k);
    }
  }

  lemma ReceiveCongruent(a: Replica, b: Replica, d: StateDelta)
    requires SameContents(a, b) && a.deltaSeq == b.deltaSeq
    ensures Receive(a, d).ok == Receive(b, d).ok && Receive(a, d).advanced == Receive(b, d).advanced
    ensures SameContents(Receive(a, d).replica, Receive(b, d).replica)
    ensures Receive(a, d).replica.deltaSeq == Receive(b, d).replica.deltaSeq
  {
    hide SumAdvances, MergeSum, SameSum, MergeTop, ValidCandidate, ValidNodeId;
    if DecodeSumDelta(d).Some? {
      var x := DecodeSumDelta(d).value;
      SameSumAdvances(a.sum.contrib, b.sum.contrib, map[x.node := x.value]);
    }
  }

  lemma MergeSnapshotCongruent(a: Replica, b: Replica, s: SnapshotResp)
    requires SameContents(a, b) && a.deltaSeq == b.deltaSeq
    ensures MergeSnapshot(a, s).ok == MergeSnapshot(b, s).ok && MergeSnapshot(a, s).advanced == MergeSnapshot(b, s).advanced
    ensures SameContents(MergeSnapshot(a, s).replica, MergeSnapshot(b, s).replica)
    ensures MergeSnapshot(a, s).replica.deltaSeq == MergeSnapshot(b, s).replica.deltaSeq
  {
    hide SumAdvances, MergeSum, SameSum, MergeTop, ValidCandidates, ValidContrib;
    if s.sumState.Present? {
      SameSumAdvances(a.sum.contrib, b.sum.contrib, s.sumState.payload.contrib);
    }
  }

  /** Replay depends only on contents and delta sequence. */
  lemma ReplayCongruent(a: Replica, b: Replica, m: Mutation)
    requires ReplicaValid(a) && ReplicaValid(b) && SameContents(a, b) && a.deltaSeq == b.deltaSeq
    ensures Replay(a, m).ok == Replay(b, m).ok && Replay(a, m).advanced == Replay(b, m).advanced
    ensures SameContents(Replay(a, m).replica, Replay(b, m).replica)
    ensures Replay(a, m).replica.deltaSeq == Replay(b, m).replica.deltaSeq
    ensures ReplicaValid(Replay(a, m).replica) && ReplicaValid(Replay(b, m).replica)
  {
    hide Receive, MergeSnapshot, ReplicaValid, SameContents, ContentsLeq;
    match m
    case DeltaRecord(d) =>
      ReceiveCongruent(a, b, d);
      ReceiveGrows(a, d);
      ReceiveGrows(b, d);
    case SnapshotRecord(s) =>
      MergeSnapshotCongruent(a, b, s);
      SnapshotGrows(a, s);
      SnapshotGrows(b, s);
  }

  /** Replaying an issued delta onto the state before the update gives the state after it. */
  lemma ReplayIssued(r: Replica, u: LocalUpdate)
    requires ReplicaValid(r) && r.deltaSeq < MAX_U64 && IssueLocal(r, u).Issued?
    ensures var a := IssueLocal(r, u);
            var p := Receive(r, a.delta);
            && p.ok && p.advanced && SameContents(p.replica, a.replica) && p.replica.deltaSeq == a.replica.deltaSeq
            && !SameContents(r, a.replica)
  {
    IssueGrows(r, u);
    var a := IssueLocal(r, u);
    ReceiveAdvancesOnce(r, a.delta);
    if a.delta.kind == SUM {
      var p := map[r.nodeId := a.delta.body.value];
      forall k: NodeId ensures Get(MergeSum(r.sum.contrib, p), k) == Get(a.replica.sum.contrib, k) {
        MergeSumMax(r.sum.contrib, p, k);
      }
      assert Get(r.sum.contrib, r.nodeId) != Get(a.replica.sum.contrib, r.nodeId);
    }
  }

  lemma AdvancedDiffers(r: Replica, m: Mutation)
    requires ReplicaValid(r) && Replay(r, m).ok && Replay(r, m).advanced
    ensures !SameContents(r, Replay(r, m).replica)
  {
    match m
    case DeltaRecord(d) =>
      if d.kind == SUM {
        var x := DecodeSumDelta(d).value;
        var p := map[x.node := x.value];
        var k :| k in p && p[k] > Get(r.sum.contrib, k);
        MergeSumMax(r.sum.contrib, p, k);
      }
    case SnapshotRecord(s) =>
      AfterSumGrows(r, s.sumState);
      AfterTopGrows(AfterSum(r, s.sumState), s.topkState);
      var k: NodeId;
      if SumNews(r, s.sumState) {
        k :| Get(r.sum.contrib, k) != Get(AfterSum(r, s.sumState).sum.contrib, k);
      }
  }

  // ---------------------------------------------------------------- one step

  lemma ExactSame(s: Live, t: Live)
    requires Exact(s) && t.disk == s.disk && ReplicaValid(t.replica)
    requires t.replica.nodeId == s.replica.nodeId && t.replica.kmax == s.replica.kmax
    ensures Exact(t) <==> SameContents(s.replica, t.replica) && s.replica.deltaSeq == t.replica.deltaSeq
  {
    var r := Recover(s.replica.nodeId, s.replica.kmax, s.disk).value;
    if SameContents(s.replica, t.replica) {
      forall k: NodeId ensures Get(r.sum.contrib, k) == Get(t.replica.sum.contrib, k) {
        assert Get(s.replica.sum.contrib, k) == Get(t.replica.sum.contrib, k);
      }
    }
    if SameContents(r, t.replica) {
      forall k: NodeId ensures Get(s.replica.sum.contrib, k) == Get(t.replica.sum.contrib, k) {
        assert Get(s.replica.sum.contrib, k) == Get(r.sum.contrib, k);
      }
    }
  }

  /** With the record on disk, recovery is exact precisely when the live replica moved with it. */
  lemma ExactAppended(s: Live, m: Mutation, after: Replica)
    requires Exact(s) && Replay(s.replica, m).ok && Replay(s.replica, m).advanced
    requires SameContents(Replay(s.replica, m).replica, after) && Replay(s.replica, m).replica.deltaSeq == after.deltaSeq
    requires ReplicaValid(after)
    ensures Exact(Live(after, s.disk.(log := s.disk.log + [m])))
    ensures !Exact(Live(s.replica, s.disk.(log := s.disk.log + [m])))
  {
    var r := Recover(s.replica.nodeId, s.replica.kmax, s.disk).value;
    RecoverAppend(s.replica.nodeId, s.replica.kmax, s.disk, m);
    ReplayCongruent(r, s.replica, m);
    AdvancedDiffers(s.replica, m);
    SameContentsChain(Replay(r, m).replica, Replay(s.replica, m).replica, after);
    if SameContents(Replay(r, m).replica, s.replica) {
      SameContentsChain(s.replica, Replay(r, m).replica, Replay(s.replica, m).replica);
    }
  }

  lemma SameContentsChain(a: Replica, b: Replica, c: Replica)
    requires SameContents(a, b) || SameContents(b, a)
    requires SameContents(b, c)
    ensures SameContents(a, c)
  {
    forall k: NodeId ensures Get(a.sum.contrib, k) == Get(c.sum.contrib, k) {
      assert Get(a.sum.contrib, k) == Get(b.sum.contrib, k);
      assert Get(b.sum.contrib, k) == Get(c.sum.contrib, k);
    }
  }

  /** A checkpoint covers the whole journal, and recovering from it gives back the replica itself, versions included. */
  lemma CheckpointExact(s: Live)
    requires Exact(s)
    ensures Exact(Step(s, CheckpointTaken))
    ensures Step(s, CheckpointTaken).replica == s.replica && Step(s, CheckpointTaken).disk.log == s.disk.log
    ensures Recover(s.replica.nodeId, s.replica.kmax, Step(s, CheckpointTaken).disk) == Some(s.replica)
  {
    var r := s.replica;
    var x := SnapshotOf(r, [SUM, TOPK]).value;
    CanonicalFixpoint(r.topk.candidates, r.kmax);
    assert SUM in [SUM, TOPK] && TOPK in [SUM, TOPK];
    assert Restore(NewReplica(r.nodeId, r.kmax), x).replica == r;
    assert s.disk.log[|s.disk.log|..] == [];
  }

  lemma LocalExact(s: Live, u: LocalUpdate, io: Append)
    requires Exact(s) && s.replica.deltaSeq < MAX_U64
    ensures Exact(Step(s, Local(u, io))) <==> Durable(s.replica, Local(u, io))
  {
    var a := IssueLocal(s.replica, u);
    if a.Issued? {
      IssueGrows(s.replica, u);
      ReplayIssued(s.replica, u);
      ExactAppended(s, DeltaRecord(a.delta), a.replica);
    }
  }

  lemma ReceivedExact(s: Live, d: StateDelta, io: Append)
    requires Exact(s)
    ensures Exact(Step(s, Received(d, io))) <==> Durable(s.replica, Received(d, io))
  {
    var a := Receive(s.replica, d);
    ReceiveGrows(s.replica, d);
    if a.ok && a.advanced {
      ExactAppended(s, DeltaRecord(d), a.replica);
    } else {
      ExactSame(s, Step(s, Received(d, io)));
    }
  }

  lemma SnapshotExact(s: Live, x: SnapshotResp, io: Append)
    requires Exact(s)
    ensures Exact(Step(s, Snapshot(x, io))) <==> Durable(s.replica, Snapshot(x, io))
  {
    var a := MergeSnapshot(s.replica, x);
    SnapshotGrows(s.replica, x);
    if a.ok && a.advanced {
      ExactAppended(s, SnapshotRecord(x), a.replica);
    } else {
      ExactSame(s, Step(s, Snapshot(x, io)));
      if !a.ok { SnapshotErrorUndone(s.replica, x); }
    }
  }

  /** One call keeps recovery exact if and only if its guard holds. */
  lemma StepExact(s: Live, e: Event)
    requires Exact(s) && s.replica.deltaSeq < MAX_U64
    ensures Exact(Step(s, e)) <==> Durable(s.replica, e)
  {
    match e
    case Local(u, io) => LocalExact(s, u, io);
    case Received(d, io) => ReceivedExact(s, d, io);
    case Snapshot(x, io) => SnapshotExact(s, x, io);
    case CheckpointTaken => CheckpointExact(s);
    case Crash =>
  }

  // ---------------------------------------------------------------- what each condition of the guard is for

  function OwnSum(nodeId: NodeId, value: U64): StateDelta {
    StateDelta(SUM, 1, nodeId, 1, SumBody(nodeId, value))
  }

  /** A node whose only SUM entry is its own. */
  function WithSum(nodeId: NodeId, kmax: nat, value: U64, version: U64, sequence: U64): Replica {
    Replica(nodeId, kmax, SumState(map[nodeId := value], version), TopState([], 0), sequence)
  }

  lemma FirstSum(nodeId: NodeId, kmax: nat, x: U64, disk: Disk, io: Append)
    requires x > 0
    ensures Step(Live(NewReplica(nodeId, kmax), disk), Local(SumUpdate(x), io)) ==
            Live(if io.Done? then WithSum(nodeId, kmax, x, 1, 1) else NewReplica(nodeId, kmax),
                 Write(disk, DeltaRecord(OwnSum(nodeId, x)), io))
  {
    assert map[nodeId := 0 as U64][nodeId := x] == map[nodeId := x];
  }

  lemma ReceiveOwnSum(r: Replica, value: U64)
    requires ValidNodeId(r.nodeId)
    ensures var a := Receive(r, OwnSum(r.nodeId, value));
            a.ok && a.replica.nodeId == r.nodeId
            && Get(a.replica.sum.contrib, r.nodeId) == Max64(Get(r.sum.contrib, r.nodeId), value)
  {
    hide MergeSum, SumAdvances, ValidNodeId;
    MergeSumMax(r.sum.contrib, map[r.nodeId := value], r.nodeId);
  }

  /** Replaying a journal of own SUM deltas ends at the largest. */
  lemma RecoverTwo(nodeId: NodeId, kmax: nat, v: U64, w: U64)
    requires ValidNodeId(nodeId)
    ensures var r := Recover(nodeId, kmax, Disk([DeltaRecord(OwnSum(nodeId, v)), DeltaRecord(OwnSum(nodeId, w))], None));
            r.Some? && Get(r.value.sum.contrib, nodeId) == Max64(v, w)
  {
    hide Receive, ValidNodeId;
    var r0 := NewReplica(nodeId, kmax);
    var m, n := DeltaRecord(OwnSum(nodeId, v)), DeltaRecord(OwnSum(nodeId, w));
    ReceiveOwnSum(r0, v);
    RecoverAppend(nodeId, kmax, Disk([], None), m);
    assert [] + [m] == [m] && [m] + [n] == [m, n];
    ReceiveOwnSum(Receive(r0, OwnSum(nodeId, v)).replica, w);
    RecoverAppend(nodeId, kmax, Disk([m], None), n);
  }

  /** A failed sync: the caller is told that adding 5 failed and then adds 3, under the same sequence. Both deltas stay
      in the journal, and a restart recovers 5 where the live node held 3. */
  lemma FailedSyncDiverges(nodeId: NodeId, kmax: nat)
    requires ValidNodeId(nodeId) && kmax > 0
    ensures var s := Step(Step(Boot(nodeId, kmax), Local(SumUpdate(5), WrittenNotSynced)), Local(SumUpdate(3), Done));
            && s.disk.log == [DeltaRecord(OwnSum(nodeId, 5)), DeltaRecord(OwnSum(nodeId, 3))]
            && Get(s.replica.sum.contrib, nodeId) == 3
            && Recover(nodeId, kmax, s.disk).Some?
            && Get(Recover(nodeId, kmax, s.disk).value.sum.contrib, nodeId) == 5
  {
    var m, n := DeltaRecord(OwnSum(nodeId, 5)), DeltaRecord(OwnSum(nodeId, 3));
    FirstSum(nodeId, kmax, 5, Disk([], None), WrittenNotSynced);
    FirstSum(nodeId, kmax, 3, Disk([m], None), Done);
    RecoverTwo(nodeId, kmax, 5, 3);
    hide Step, Recover;
    assert [] + [m] == [m] && [m] + [n] == [m, n];
  }

  /** An own sequence echoed from above without news: the live node moves its counter, the journal does not. */
  lemma EchoDiverges(nodeId: NodeId, kmax: nat, io: Append)
    requires ValidNodeId(nodeId) && kmax > 0
    ensures var s := Step(Boot(nodeId, kmax), Received(OwnSum(nodeId, 0), io));
            && s.replica.deltaSeq == 1 && s.disk == Disk([], None)
            && Recover(nodeId, kmax, s.disk) == Some(NewReplica(nodeId, kmax))
            && NewReplica(nodeId, kmax).deltaSeq == 0
  {
  }

  /** A snapshot whose SUM part is merged before its TOPK part is found to be bad: reported as failed, never journaled,
      and gone after a restart. */
  lemma HalfMergedDiverges(nodeId: NodeId, kmax: nat, io: Append)
    requires ValidNodeId(nodeId) && kmax > 0
    ensures var x := SnapshotResp(1, Present(SumState(map[nodeId := 1], 1)), Malformed, map[]);
            var s := Step(Boot(nodeId, kmax), Snapshot(x, io));
            && Get(s.replica.sum.contrib, nodeId) == 1 && s.disk == Disk([], None)
            && Recover(nodeId, kmax, s.disk) == Some(NewReplica(nodeId, kmax))
            && Get(NewReplica(nodeId, kmax).sum.contrib, nodeId) == 0
  {
    HalfMergedSnapshot(nodeId, kmax);
  }

  // ---------------------------------------------------------------- every run

  ghost predicate DurableRun(s: Live, es: seq<Event>) {
    forall i :: 0 <= i < |es| ==>
      Steps(s, es[..i]).replica.deltaSeq < MAX_U64 && Durable(Steps(s, es[..i]).replica, es[i])
  }

  function Boot(nodeId: NodeId, kmax: nat): Live {
    Live(NewReplica(nodeId, kmax), Disk([], None))
  }

  /** Crash recovery refines the live manager: after any run of updates, received deltas, snapshots,
      checkpoints and crashes whose guards hold, a crash changes neither contents nor delta sequence. */
  lemma {:induction false} RecoveryRefinesLive(nodeId: NodeId, kmax: nat, es: seq<Event>)
    requires ValidNodeId(nodeId) && kmax > 0
    requires DurableRun(Boot(nodeId, kmax), es)
    ensures var s := Steps(Boot(nodeId, kmax), es);
            && Exact(s) && Recover(nodeId, kmax, s.disk).Some?
            && SameContents(Step(s, Crash).replica, s.replica)
            && Step(s, Crash).replica.deltaSeq == s.replica.deltaSeq
  {
    var s0 := Boot(nodeId, kmax);
    StepsKeepIdentity(s0, es);
    if es == [] {
    } else {
      var init := es[..|es| - 1];
      forall i | 0 <= i < |init|
        ensures Steps(s0, init[..i]).replica.deltaSeq < MAX_U64 && Durable(Steps(s0, init[..i]).replica, init[i])
      {
        assert init[..i] == es[..i];
      }
      RecoveryRefinesLive(nodeId, kmax, init);
      StepExact(Steps(s0, init), es[|es| - 1]);
    }
  }

  lemma {:induction false} StepsKeepIdentity(s: Live, es: seq<Event>)
    requires s.replica.kmax > 0 && ValidNodeId(s.replica.nodeId)
    ensures Steps(s, es).replica.nodeId == s.replica.nodeId && Steps(s, es).replica.kmax == s.replica.kmax
  {
    if es != [] {
      StepsKeepIdentity(s, es[..|es| - 1]);
      var t := Steps(s, es[..|es| - 1]);
      RecoverIdentity(t.replica.nodeId, t.replica.kmax, t.disk);
    }
  }

  lemma {:induction false} ReplayIdentity(r: Replica, ms: seq<Mutation>)
    ensures ReplayAll(r, ms).Some? ==>
              ReplayAll(r, ms).value.nodeId == r.nodeId && ReplayAll(r, ms).value.kmax == r.kmax
  {
    if ms != [] {
      ReplayIdentity(r, ms[..|ms| - 1]);
    }
  }

  lemma RecoverIdentity(nodeId: NodeId, kmax: nat, disk: Disk)
    ensures var r := Recover(nodeId, kmax, disk); r.Some? ==> r.value.nodeId == nodeId && r.value.kmax == kmax
  {
    if disk.checkpoint.None? {
      ReplayIdentity(NewReplica(nodeId, kmax), disk.log);
    } else if disk.checkpoint.value.index <= |disk.log| {
      ReplayIdentity(Restore(NewReplica(nodeId, kmax), disk.checkpoint.value.state).replica,
                     disk.log[disk.checkpoint.value.index..]);
    }
  }
}
