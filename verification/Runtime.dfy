/** The handlers of internal/gossip/delta as steps of one node: each handler is atomic. */
module Runtime {
  import opened Base
  import opened TopK
  import opened Sum
  import opened Protocol
  import opened History
  import opened Pipeline
  import opened Recovery

  datatype Body =
    | DeltaMsg(delta: StateDelta)
    | DigestMsg(digest: StateDigest)
    | RangeReqMsg(ranges: seq<DeltaRange>, known: StateDigest)
    | RangeRespMsg(deltas: seq<StateDelta>)
    | SnapReqMsg(want: seq<Kind>, known: StateDigest)
    | SnapRespMsg(resp: SnapshotResp, carried: set<StateDelta>)

  datatype Envelope = Envelope(from: NodeId, sequence: U64, body: Body)

  datatype Config = Config(kmax: nat, historyCapacity: nat, queueSize: nat)

  /** `observed` is a history variable: the deltas whose effect has been merged. No branch reads it. In a
      snapshot message `carried` is the sender's `observed`. */
  datatype Node = Node(replica: Replica, history: Hist, queue: seq<StateDelta>, guard: map<NodeId, U64>,
                       outSeq: U64, disk: Disk, observed: set<StateDelta>)

  datatype Effect = Effect(node: Node, sent: set<Envelope>, forwarded: Option<StateDelta>)

  ghost function NewNode(cfg: Config, id: NodeId): Node {
    Node(NewReplica(id, cfg.kmax), NewHistory(cfg.historyCapacity), [], map[], 0, Disk([], None), {})
  }

  // ---------------------------------------------------------------- what a node tells others

  /** mergeWatermarks: copy each strictly larger entry, exactly the loop of the counter's Merge. */
  function MergeWatermarks(destination: map<NodeId, U64>, source: map<NodeId, U64>): map<NodeId, U64> {
    MergeSum(destination, source)
  }

  function LocalDigest(n: Node): StateDigest {
    var d := DigestOf(n.replica);
    d.(sequences := MergeWatermarks(d.sequences, Reported(n.history)))
  }

  /** The watermark that the node advertises for an origin. */
  function Advertised(n: Node, o: NodeId): U64 {
    Get(LocalDigest(n).sequences, o)
  }

  lemma AdvertisedIs(n: Node, o: NodeId)
    ensures Advertised(n, o) ==
            Max64(if o == n.replica.nodeId then n.replica.deltaSeq else 0, Watermark(n.history, o))
  {
    MergeSumMax(DigestOf(n.replica).sequences, Reported(n.history), o);
  }

  function Send(n: Node, body: Body): Effect {
    var sequence := Next64(n.outSeq);
    Effect(n.(outSeq := sequence), {Envelope(n.replica.nodeId, sequence, body)}, None)
  }

  function Quiet(n: Node): Effect {
    Effect(n, {}, None)
  }

  function BroadcastDigest(n: Node): Effect {
    Send(n, DigestMsg(LocalDigest(n)))
  }

  function SendSnapshot(n: Node, want: seq<Kind>): Effect {
    match SnapshotOf(n.replica, want)
    case None => Quiet(n)
    case Some(s) =>
      Send(n, SnapRespMsg(s.(sequences := MergeWatermarks(s.sequences, Reported(n.history))), n.observed))
  }

  // ---------------------------------------------------------------- deltas

  /** MessageGuard.Accept: only sequences above the sender's highest pass. */
  predicate Accepts(guard: map<NodeId, U64>, from: NodeId, s: U64) {
    from !in guard || s > guard[from]
  }

  function LiveOf(n: Node): Live {
    Live(n.replica, n.disk)
  }

  function WithLive(n: Node, s: Live): Node {
    n.(replica := s.replica, disk := s.disk)
  }

  /** ApplyReceivedDelta followed, if it succeeded, by recordDelta. */
  ghost function ApplyDelta(n: Node, d: StateDelta, io: Append): Node
  {
    var n1 := WithLive(n, Step(LiveOf(n), Received(d, io)));
    if Persist(n.replica, Receive(n.replica, d), io.Done?).ok
    then n1.(history := AfterRecord(n.history, d), observed := n.observed + {d})
    else n1
  }

  predicate DeltaApplied(n: Node, d: StateDelta, io: Append) {
    Persist(n.replica, Receive(n.replica, d), io.Done?).ok
  }

  ghost function HandleDelta(n: Node, e: Envelope, d: StateDelta, io: Append): Effect
  {
    if !Accepts(n.guard, e.from, e.sequence) then Quiet(n)
    else
      var n1 := ApplyDelta(n.(guard := n.guard[e.from := e.sequence]), d, io);
      if DeltaApplied(n, d, io) && Receive(n.replica, d).advanced
      then Effect(n1, {e}, Some(d))
      else Quiet(n1)
  }

  /** The loop of handleDeltaRangeResp: the journal takes the first `failAt` deltas, and its appends for the
      others end in `io`. The loop stops at the first delta that is not applied. */
  ghost function ApplyDeltas(n: Node, ds: seq<StateDelta>, failAt: nat, io: Append): (Node, bool)
    decreases |ds|
  {
    if ds == [] then (n, true)
    else
      var now := if failAt > 0 then Done else io;
      var n1 := ApplyDelta(n, ds[0], now);
      if DeltaApplied(n, ds[0], now) then ApplyDeltas(n1, ds[1..], if failAt > 0 then failAt - 1 else 0, io)
      else (n1, false)
  }

  ghost function HandleRangeResp(n: Node, ds: seq<StateDelta>, failAt: nat, io: Append): Effect
  {
    if !ValidRecovered(ds) then Quiet(n)
    else
      var r := ApplyDeltas(n, ds, failAt, io);
      if r.1 then BroadcastDigest(r.0) else Quiet(r.0)
  }

  // ---------------------------------------------------------------- digests and requests

  /** handleStateDigest. The request it builds always passes its validator, by RequestAgreement. */
  ghost function HandleDigest(n: Node, peer: StateDigest): Effect {
    if !ValidSequences(peer.sequences) then Quiet(n)
    else
      var local := LocalDigest(n);
      var ranges := MissingRanges(local.sequences, peer.sequences);
      if ranges != [] then Send(n, RangeReqMsg(ranges, local))
      else
        var want := AggregatesNeedingSnapshot(local, peer);
        if want == [] then Quiet(n) else Send(n, SnapReqMsg(want, local))
  }

  ghost function CollectRanges(h: Hist, ranges: seq<DeltaRange>): Option<seq<StateDelta>> {
    if ranges == [] then Some([])
    else
      match RangeOf(h, ranges[0])
      case None => None
      case Some(first) =>
        match CollectRanges(h, ranges[1..])
        case None => None
        case Some(rest) => Some(first + rest)
  }

  function FallbackWant(n: Node, known: StateDigest): seq<Kind> {
    var want := AggregatesNeedingSnapshot(known, DigestOf(n.replica));
    if want == [] then [SUM, TOPK] else want
  }

  ghost function HandleRangeReq(n: Node, ranges: seq<DeltaRange>, known: StateDigest): Effect {
    if !ValidRanges(ranges) then Quiet(n)
    else
      match CollectRanges(n.history, ranges)
      case None => SendSnapshot(n, FallbackWant(n, known))
      case Some(ds) => if ValidRecovered(ds) then Send(n, RangeRespMsg(ds)) else Quiet(n)
  }

  function HandleSnapReq(n: Node, want: seq<Kind>): Effect {
    if Wanted(want) then SendSnapshot(n, want) else Quiet(n)
  }

  /** The aggregates that a snapshot carries. */
  function Carries(s: SnapshotResp): set<Kind> {
    (if s.sumState.Absent? then {} else {SUM}) + (if s.topkState.Absent? then {} else {TOPK})
  }

  function OfKinds(ds: set<StateDelta>, kinds: set<Kind>): set<StateDelta> {
    set d | d in ds && d.kind in kinds
  }

  function HandleSnapResp(n: Node, s: SnapshotResp, carried: set<StateDelta>, io: Append): Effect {
    if !ValidSequences(s.sequences) || Carries(s) == {} then Quiet(n)
    else
      var n1 := WithLive(n, Step(LiveOf(n), Snapshot(s, io)));
      if !Persist(n.replica, MergeSnapshot(n.replica, s), io.Done?).ok then Quiet(n1)
      else
        var n2 := n1.(history := AfterAdvance(n.history, s.sequences),
                      observed := n.observed + OfKinds(carried, Carries(s)));
        if MergeSnapshot(n.replica, s).advanced then BroadcastDigest(n2) else Quiet(n2)
  }

  ghost function Handle(n: Node, e: Envelope, io: Append, failAt: nat): Effect
  {
    match e.body
    case DeltaMsg(d) => HandleDelta(n, e, d, io)
    case DigestMsg(digest) => HandleDigest(n, digest)
    case RangeReqMsg(ranges, known) => HandleRangeReq(n, ranges, known)
    case RangeRespMsg(ds) => HandleRangeResp(n, ds, failAt, io)
    case SnapReqMsg(want, known) => HandleSnapReq(n, want)
    case SnapRespMsg(s, carried) => HandleSnapResp(n, s, carried, io)
  }

  // ---------------------------------------------------------------- local steps

  /** ApplyLocalUpdate: journal first, then enqueue; a full queue drops the delta. */
  function LocalStep(n: Node, u: LocalUpdate, io: Append, queueSize: nat): Node {
    var a := IssueLocal(n.replica, u);
    var n1 := WithLive(n, Step(LiveOf(n), Local(u, io)));
    if a.Issued? && io.Done?
    then n1.(queue := if |n.queue| < queueSize then n.queue + [a.delta] else n.queue,
             observed := n.observed + {a.delta})
    else n1
  }

  /** One turn of runOutbound. */
  ghost function DequeueStep(n: Node): Effect
    requires n.queue != []
  {
    var d := n.queue[0];
    Send(n.(queue := n.queue[1..], history := AfterRecord(n.history, d)), DeltaMsg(d))
  }

  function CheckpointStep(n: Node): Node {
    WithLive(n, Step(LiveOf(n), CheckpointTaken))
  }

  /** A crash and a restart: recovery from disk, a new Runtime, everything volatile lost. */
  ghost function RestartStep(n: Node, historyCapacity: nat): Node {
    var r := Step(LiveOf(n), Crash).replica;
    Node(r, AfterAdvance(NewHistory(historyCapacity), DigestOf(r).sequences), [], map[], 0, n.disk, n.observed)
  }
}
