/** One digest broadcast with the messages it triggers between two nodes, all delivered and all journaled. */
module Rounds {
  import opened Base
  import opened TopK
  import opened Sum
  import opened Protocol
  import opened History
  import opened Pipeline
  import opened Recovery
  import opened Runtime

  /** The only envelope that a step sends, if it sends one. */
  ghost function Only(sent: set<Envelope>): Option<Envelope> {
    if sent == {} then None else var e :| e in sent; Some(e)
  }

  lemma OnlyOne(e: Envelope)
    ensures Only({e}) == Some(e)
  {
    assert {e} != {};
  }

  /** Deliver `e` to `n`, with every journal append succeeding. */
  ghost function Deliver(n: Node, e: Envelope): Effect {
    Handle(n, e, Done, if e.body.RangeRespMsg? then |e.body.deltas| else 0)
  }

  /** `x` broadcasts its digest, which reaches `y`; `y`'s request, if it makes one, reaches `x`; `x`'s answer, if it gives
      one, reaches `y`. What `y` has to say after that is lost. */
  ghost function DigestRound(x: Node, y: Node): (Node, Node) {
    var b := BroadcastDigest(x);
    match Only(b.sent)
    case None => (b.node, y)
    case Some(digest) =>
      var f := Deliver(y, digest);
      match Only(f.sent)
      case None => (b.node, f.node)
      case Some(request) =>
        var g := Deliver(b.node, request);
        match Only(g.sent)
        case None => (g.node, f.node)
        case Some(answer) => (g.node, Deliver(f.node, answer).node)
  }

  /** A replica and a history as a running node has them: no own delta stored beyond the own sequence. */
  ghost predicate Ready(n: Node) {
    && ReplicaValid(n.replica) && HistValid(n.history)
    && forall s :: s in At(n.history, n.replica.nodeId) ==> s <= n.replica.deltaSeq
  }

  lemma DigestValid(n: Node)
    requires Ready(n)
    ensures ValidSequences(LocalDigest(n).sequences)
  {
  }

  // ---------------------------------------------------------------- the courses that a round can take

  /** `n` with later envelope sequences, which nothing but its own envelopes depends on. */
  function Bumped(n: Node, outSeq: U64): Node {
    n.(outSeq := outSeq)
  }

  lemma DigestSent(x: Node)
    ensures BroadcastDigest(x).node == Bumped(x, Next64(x.outSeq))
    ensures Only(BroadcastDigest(x).sent) == Some(Envelope(x.replica.nodeId, Next64(x.outSeq), DigestMsg(LocalDigest(x))))
  {
    hide LocalDigest;
    OnlyOne(Envelope(x.replica.nodeId, Next64(x.outSeq), DigestMsg(LocalDigest(x))));
  }

  /** Nothing is asked for. */
  lemma QuietRound(x: Node, y: Node)
    requires HandleDigest(y, LocalDigest(x)) == Quiet(y)
    ensures DigestRound(x, y) == (Bumped(x, Next64(x.outSeq)), y)
  {
    hide HandleDigest, LocalDigest;
    DigestSent(x);
  }

  /** A request is made, answered, and the answer delivered. */
  lemma FullRound(x: Node, y: Node, request: Body, answer: Body)
    requires HandleDigest(y, LocalDigest(x)) == Send(y, request)
    requires var x1 := Bumped(x, Next64(x.outSeq));
             Deliver(x1, Envelope(y.replica.nodeId, Next64(y.outSeq), request)) == Send(x1, answer)
    ensures var x2 := Bumped(x, Next64(Next64(x.outSeq)));
            var y1 := Bumped(y, Next64(y.outSeq));
            DigestRound(x, y) == (x2, Deliver(y1, Envelope(x.replica.nodeId, x2.outSeq, answer)).node)
  {
    hide HandleDigest, LocalDigest, HandleRangeReq, HandleSnapReq, HandleRangeResp, HandleSnapResp, HandleDelta;
    DigestSent(x);
    OnlyOne(Envelope(y.replica.nodeId, Next64(y.outSeq), request));
    OnlyOne(Envelope(x.replica.nodeId, Next64(Next64(x.outSeq)), answer));
  }
}
