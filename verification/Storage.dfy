/** internal/storage: the journal and the checkpoints of one node, over the write-ahead log. */
module Storage {
  import opened Base
  import opened Protocol
  import opened Recovery
  import opened Wal
  import Runtime

  const RECORD_DELTA := "state_delta"
  const RECORD_SNAPSHOT := "state_snapshot"

  /** JSON for mutations, as functions. */
  datatype Json = Json(encodeDelta: StateDelta -> seq<Byte>, decodeDelta: seq<Byte> -> Option<StateDelta>,
                       encodeSnapshot: SnapshotResp -> seq<Byte>, decodeSnapshot: seq<Byte> -> Option<SnapshotResp>)

  ghost predicate JsonFaithful(j: Json) {
    && (forall d :: j.encodeDelta(d) != [] && j.decodeDelta(j.encodeDelta(d)) == Some(d))
    && (forall s :: j.encodeSnapshot(s) != [] && j.decodeSnapshot(j.encodeSnapshot(s)) == Some(s))
  }

  /** The switch of Recover on one record: None is ErrInvalidRecoveryRecord. */
  function MutationOf(r: Record, j: Json): Option<Mutation> {
    if r.kind == RECORD_DELTA then
      match j.decodeDelta(r.payload) case None => None case Some(d) => Some(DeltaRecord(d))
    else if r.kind == RECORD_SNAPSHOT then
      match j.decodeSnapshot(r.payload) case None => None case Some(s) => Some(SnapshotRecord(s))
    else None
  }

  ghost predicate AllDecode(rs: seq<Record>, j: Json) {
    forall i :: 0 <= i < |rs| ==> MutationOf(rs[i], j).Some?
  }

  ghost function Mutations(rs: seq<Record>, j: Json): seq<Mutation>
    requires AllDecode(rs, j)
  {
    seq(|rs|, i requires 0 <= i < |rs| => MutationOf(rs[i], j).value)
  }

  /** DecodeSnapshotResp on a checkpoint. */
  predicate CheckpointOk(s: SnapshotResp) {
    Runtime.Carries(s) != {} && ValidSequences(s.sequences)
  }

  ghost predicate IsLatest(i: U64, m: map<U64, SnapshotResp>) {
    i in m && forall k :: k in m ==> k <= i
  }

  ghost function Newest(m: map<U64, SnapshotResp>): Option<Checkpoint> {
    if exists i: U64 :: IsLatest(i, m) then var i: U64 :| IsLatest(i, m); Some(Checkpoint(i, m[i])) else None
  }

  datatype Recovered = Recovered(checkpoint: Option<SnapshotResp>, mutations: seq<Mutation>)

  /** What a journal append amounts to, given the state of the log and the file system. */
  function Outcome(closed: bool, syncDue: bool, io: IO): Append {
    if closed || io == WriteFails then NotWritten
    else if syncDue && io == SyncFails then WrittenNotSynced
    else Done
  }

  lemma TailDecodes(rs: seq<Record>, j: Json, from: nat)
    requires AllDecode(rs, j) && from <= |rs|
    ensures AllDecode(rs[from..], j) && Mutations(rs[from..], j) == Mutations(rs, j)[from..]
  {
  }

  /** The loop of Recover over the journal tail: stops at the first record it cannot decode. */
  method DecodeRecords(rs: seq<Record>, j: Json) returns (r: Option<seq<Mutation>>)
    ensures r.Some? <==> AllDecode(rs, j)
    ensures r.Some? ==> r.value == Mutations(rs, j)
  {
    var mutations: seq<Mutation> := [];
    for i := 0 to |rs|
      invariant |mutations| == i
      invariant forall k :: 0 <= k < i ==> MutationOf(rs[k], j) == Some(mutations[k])
    {
      var m := MutationOf(rs[i], j);
      if m.None? {
        return None;
      }
      mutations := mutations + [m.value];
    }
    return Some(mutations);
  }

  class Store {
    const wal: Log
    const json: Json
    /** The published snapshot files, by the journal index in their names. */
    var snapshots: map<U64, SnapshotResp>
    var closed: bool

    /** Every record decodes, and every checkpoint lies within the durable part of the journal. */
    ghost predicate Valid()
      reads this, wal
    {
      && wal.Valid() && JsonFaithful(json) && AllDecode(wal.Recorded(), json)
      && (closed <==> wal.closed)
      && (forall i :: i in snapshots ==>
            CheckpointOk(snapshots[i]) && i <= wal.lastIndex && wal.Safe(i))
    }

    ghost function DiskOf(): (d: Disk)
      requires Valid()
      reads this, wal
      ensures |d.log| == wal.lastIndex
    {
      Disk(Mutations(wal.Recorded(), json), Newest(snapshots))
    }

    constructor (wal: Log, json: Json, snapshots: map<U64, SnapshotResp>)
      ensures !closed && this.wal == wal && this.json == json && this.snapshots == snapshots
    {
      this.wal := wal;
      this.json := json;
      this.snapshots := snapshots;
      closed := false;
    }

    ghost function AppendOutcome(io: IO): Append
      reads this, wal
    {
      Outcome(closed, wal.NeedsSync(), io)
    }

    method AppendDelta(d: StateDelta, io: IO) returns (ok: bool)
      requires Valid() && wal.lastIndex < MAX_U64
      modifies wal
      ensures Valid() && closed == old(closed) && snapshots == old(snapshots)
      ensures DiskOf() == Write(old(DiskOf()), DeltaRecord(d), old(AppendOutcome(io)))
      ensures ok == old(AppendOutcome(io)).Done?
    {
      ok := AppendRecord(RECORD_DELTA, json.encodeDelta(d), DeltaRecord(d), io);
    }

    method AppendSnapshot(s: SnapshotResp, io: IO) returns (ok: bool)
      requires Valid() && wal.lastIndex < MAX_U64
      modifies wal
      ensures Valid() && closed == old(closed) && snapshots == old(snapshots)
      ensures DiskOf() == Write(old(DiskOf()), SnapshotRecord(s), old(AppendOutcome(io)))
      ensures ok == old(AppendOutcome(io)).Done?
    {
      ok := AppendRecord(RECORD_SNAPSHOT, json.encodeSnapshot(s), SnapshotRecord(s), io);
    }

    method AppendRecord(kind: string, raw: seq<Byte>, ghost m: Mutation, io: IO) returns (ok: bool)
      requires Valid() && wal.lastIndex < MAX_U64 && kind != "" && raw != []
      requires forall i, sum :: MutationOf(Record(i, kind, raw, sum), json) == Some(m)
      modifies wal
      ensures Valid() && closed == old(closed) && snapshots == old(snapshots)
      ensures DiskOf() == Write(old(DiskOf()), m, old(AppendOutcome(io)))
      ensures ok == old(AppendOutcome(io)).Done?
    {
      if closed {
        return false;
      }
      hide Tidy, Scan;
      ghost var before := wal.Recorded();
      ghost var file, durable := wal.file, wal.durable;
      var index := wal.Append(kind, raw, io);
      ok := index.Some?;
      if io != WriteFails {
        assert wal.Recorded()[..|before|] == before;
        assert MutationOf(wal.Recorded()[|before|], json) == Some(m);
        assert Mutations(wal.Recorded(), json) == Mutations(before, json) + [m];
      }
    }

    /** SaveCheckpoint: sync first, then publish under the last index. `publishes` is the outcome of the file
        operations of the snapshot store. */
    method SaveCheckpoint(s: SnapshotResp, io: IO, publishes: bool) returns (ok: bool)
      requires Valid() && CheckpointOk(s)
      modifies this`snapshots, wal
      ensures Valid() && closed == old(closed) && wal.Recorded() == old(wal.Recorded())
      ensures ok == (!closed && io == AllOk && publishes)
      ensures ok ==> DiskOf() == old(DiskOf()).(checkpoint := Some(Checkpoint(wal.lastIndex, s)))
      ensures !ok ==> DiskOf() == old(DiskOf())
    {
      if closed {
        return false;
      }
      hide Tidy, Scan;
      ok := wal.Sync(io);
      if !ok || !publishes {
        return false;
      }
      snapshots := snapshots[wal.lastIndex := s];
      assert IsLatest(wal.lastIndex, snapshots);
    }

    /** LoadLatest: the snapshot file with the highest index. */
    method LoadLatest() returns (found: bool, index: U64)
      ensures found <==> Newest(snapshots).Some?
      ensures found ==> index in snapshots && Newest(snapshots) == Some(Checkpoint(index, snapshots[index]))
    {
      var todo := snapshots.Keys;
      found, index := false, 0;
      while todo != {}
        invariant todo <= snapshots.Keys
        invariant found <==> todo != snapshots.Keys
        invariant found ==> index in snapshots && forall k :: k in snapshots && k !in todo ==> k <= index
        decreases todo
      {
        var i :| i in todo;
        if !found || i > index {
          index := i;
        }
        found := true;
        todo := todo - {i};
      }
      if found {
        assert IsLatest(index, snapshots);
      }
    }

    /** Recover never rejects the newest checkpoint, and returns it with exactly the journal tail above it. */
    method Recover(io: IO) returns (r: Option<Recovered>)
      requires Valid()
      modifies wal`durable
      ensures Valid() && DiskOf() == old(DiskOf())
      ensures r.Some? <==> !closed && io == AllOk
      ensures r.Some? ==>
                match DiskOf().checkpoint
                case None => r.value.checkpoint == None && r.value.mutations == DiskOf().log
                case Some(c) =>
                  c.index <= |DiskOf().log| && r.value.checkpoint == Some(c.state)
                  && r.value.mutations == DiskOf().log[c.index..]
    {
      if closed {
        return None;
      }
      hide Tidy, Scan;
      var found, index := LoadLatest();
      var checkpoint: Option<SnapshotResp> := None;
      if found {
        if !CheckpointOk(snapshots[index]) || index > wal.lastIndex {
          return None;
        }
        checkpoint := Some(snapshots[index]);
      }
      var from := if found then index else 0;
      var records := wal.RecordsAfter(from, io);
      if records.None? {
        return None;
      }
      TailDecodes(wal.Recorded(), json, from);
      var mutations := DecodeRecords(records.value, json);
      if mutations.None? {
        return None;
      }
      return Some(Recovered(checkpoint, mutations.value));
    }

    /** Close: after a successful one a crash takes nothing. */
    method Close(io: IO) returns (ok: bool)
      requires Valid()
      modifies this`closed, wal`closed, wal`durable
      ensures Valid() && closed && DiskOf() == old(DiskOf())
      ensures ok == (old(closed) || io == AllOk)
      ensures ok && !old(closed) ==> wal.Safe(wal.lastIndex)
    {
      if closed {
        return true;
      }
      hide Tidy, Scan;
      closed := true;
      ok := wal.Close(io);
    }
  }

  /** Files that a store can be opened on: no blank lines before the last record, only mutations, and no
      checkpoint beyond them. */
  ghost predicate Intact(file: seq<Byte>, c: Codec, json: Json, snapshots: map<U64, SnapshotResp>) {
    && Scan(file, 0, 1, c).Some?
    && ValidSize(Scan(file, 0, 1, c).value) == LastEnd(Scan(file, 0, 1, c).value, 0)
    && AllDecode(RecordsIn(file, c), json)
    && forall i :: i in snapshots ==> CheckpointOk(snapshots[i]) && i <= |RecordsIn(file, c)|
  }

  /** Open on the files that survived: an error exactly on a corrupt record; on intact files a valid store with
      exactly their mutations and their newest checkpoint. */
  method Open(codec: Codec, mode: SyncMode, batchSize: int, json: Json, disk: seq<Byte>,
              snapshots: map<U64, SnapshotResp>) returns (r: Option<Store>)
    requires Faithful(codec) && JsonFaithful(json)
    requires Scan(disk, 0, 1, codec).Some? ==> |Scan(disk, 0, 1, codec).value| < MAX_U64
    ensures r.None? <==> Scan(disk, 0, 1, codec).None?
    ensures r.Some? ==> fresh(r.value) && fresh(r.value.wal) && !r.value.closed && r.value.wal.mode == mode
    ensures r.Some? && Intact(disk, codec, json, snapshots) ==>
              && r.value.Valid() && r.value.wal.SyncedInTime()
              && r.value.DiskOf() == Disk(Mutations(RecordsIn(disk, codec), json), Newest(snapshots))
  {
    hide Scan, Faithful;
    var log := Log.Open(codec, mode, batchSize, disk);
    if log.None? {
      return None;
    }
    var store := new Store(log.value, json, snapshots);
    ghost var wal := store.wal;
    if Intact(disk, codec, json, snapshots) {
      SafeWhenSynced(wal);
    }
    return Some(store);
  }

  /** With nothing left to sync every record survives, so every earlier prefix does. */
  lemma SafeWhenSynced(wal: Log)
    requires wal.Valid() && wal.pendingSync == 0
    ensures forall n :: 0 <= n <= wal.lastIndex ==> wal.Safe(n)
  {
    hide Scan, Faithful;
    ScanShape(wal.file, 0, 1, wal.codec);
  }

  /** The newest checkpoint survives every crash that respects the durable prefix, in every sync mode: its index
      never exceeds the number of records that are left. */
  lemma CheckpointNeverAhead(file: seq<Byte>, c: Codec, durable: nat, index: nat, cut: nat)
    requires Tidy(file, c) && durable <= cut <= |file| && DurableThrough(file, c, index, durable)
    ensures index <= |RecordsIn(file[..cut], c)|
  {
    CrashLosesAtMostPending(file, c, durable, |RecordsIn(file, c)| - index, cut);
  }

  /** What a crash leaves of a store opens again: a prefix of the journaled mutations that still holds every checkpoint.
      While syncs succeed it is the whole journal in always mode, so that recovery starts from the very disk the
      live node had, and lacks fewer mutations than a batch in batch mode. */
  lemma CrashedStore(store: Store, cut: nat)
    requires store.Valid() && store.wal.SyncedInTime() && store.wal.durable <= cut <= |store.wal.file|
    ensures var left := RecordsIn(store.wal.file[..cut], store.wal.codec);
            && Intact(store.wal.file[..cut], store.wal.codec, store.json, store.snapshots)
            && Mutations(left, store.json) <= store.DiskOf().log
            && (store.wal.mode == SyncAlways ==>
                  Disk(Mutations(left, store.json), Newest(store.snapshots)) == store.DiskOf())
            && (store.wal.mode == SyncBatch ==> |store.DiskOf().log| - |left| <= store.wal.batchSize - 1)
  {
    hide Scan, Faithful;
    var log := store.wal;
    var left := RecordsIn(log.file[..cut], log.codec);
    AcknowledgedLoss(log, cut);
    assert Mutations(left, store.json) == Mutations(log.Recorded(), store.json)[..|left|];
    CrashLosesAtMostPending(log.file, log.codec, log.durable, log.pendingSync, cut);
    forall i | i in store.snapshots ensures i <= |left| {
      CheckpointNeverAhead(log.file, log.codec, log.durable, i, cut);
    }
  }
}
