/** What a pass over the queue does to each file, told by the hub's status codes. */
module QueueLaws {
  import opened Basics
  import opened BatchQueue
  import opened StringOrder

  /** A pass comes to x: it has no limit, or fewer files than that come before x. */
  predicate InPass(q: Queue, limit: int, x: string) {
    limit <= 0 || |Below(q.pending.Keys, x)| < limit
  }

  /** The batch names this agent. */
  predicate Mine(content: Content, agentId: string) {
    agentId != "" && content.header == Agent(agentId)
  }

  /** Nothing happened to the file. */
  predicate Stays(q: Queue, after: Queue, x: string)
    requires x in q.pending
  {
    var entry := Entry(x, q.pending[x]);
    && x in after.pending && after.pending[x] == q.pending[x]
    && after.delivered[entry] == q.delivered[entry] && after.failed[entry] == q.failed[entry]
  }

  /** The file is gone, and counts once more among those the hub has. */
  predicate IsDelivered(q: Queue, after: Queue, x: string)
    requires x in q.pending
  {
    var entry := Entry(x, q.pending[x]);
    && x !in after.pending
    && after.delivered[entry] == q.delivered[entry] + 1 && after.failed[entry] == q.failed[entry]
  }

  /** The file is in the directory of failed ones. */
  predicate IsQuarantined(q: Queue, after: Queue, x: string)
    requires x in q.pending
  {
    var entry := Entry(x, q.pending[x]);
    && x !in after.pending
    && after.delivered[entry] == q.delivered[entry] && after.failed[entry] == q.failed[entry] + 1
  }

  /** Success answers that deliver a batch of this agent. */
  predicate Accepts(content: Content, agentId: string, attempt: Attempt) {
    && attempt.readable && attempt.moved && Mine(content, agentId)
    && attempt.reply.Status? && 200 <= attempt.reply.code <= 299
  }

  /** Reasons to give a file up: it is no batch of this agent, or the hub answers 4xx, other than 408, 425 and 429. */
  predicate Rejects(content: Content, agentId: string, attempt: Attempt) {
    && attempt.readable && attempt.moved
    && (!Mine(content, agentId)
        || (attempt.reply.Status? && 400 <= attempt.reply.code <= 499 && attempt.reply.code !in {408, 425, 429}))
  }

  lemma FateByCode(content: Content, agentId: string, attempt: Attempt)
    ensures agentId != "" ==> (FateOf(content, agentId, attempt) == Deliver <==> Accepts(content, agentId, attempt))
    ensures agentId != "" ==> (FateOf(content, agentId, attempt) == Quarantine <==> Rejects(content, agentId, attempt))
  {
  }

  lemma BelowIsLess(names: set<string>, x: string)
    requires x in names
    ensures |Below(names, x)| < |names|
  {
    LessAsymmetric(x, x);
    var others := names - {x};
    assert Below(names, x) <= others;
    SubsetSize(Below(names, x), others);
  }

  lemma TakenIff(q: Queue, limit: int, x: string)
    requires x in q.pending
    ensures x in Taken(q.pending.Keys, limit) <==> InPass(q, limit, x)
  {
    BelowIsLess(q.pending.Keys, x);
    hide Below;
  }

  lemma PickCount(files: map<string, Content>, names: set<string>, e: Entry)
    ensures Entries(Pick(files, names))[e]
         == if e.name in names && e.name in files && files[e.name] == e.content then 1 else 0
  {
    EntryIn(Pick(files, names), e);
  }

  /** Exactly which answers deliver a file, which ones quarantine it, and which ones leave it for the next pass: those it
      does not come to, a file that cannot be read or moved, no answer, and every other status, 408, 425, 429 and 5xx
      among them. Nothing else is counted as delivered or failed. */
  lemma PassByCode(q: Queue, agentId: string, limit: int, attempts: string -> Attempt, x: string)
    requires agentId != "" && x in q.pending
    ensures var after := SendPass(q, agentId, limit, attempts);
            && (IsDelivered(q, after, x) <==> InPass(q, limit, x) && Accepts(q.pending[x], agentId, attempts(x)))
            && (IsQuarantined(q, after, x) <==> InPass(q, limit, x) && Rejects(q.pending[x], agentId, attempts(x)))
            && (Stays(q, after, x) <==> !IsDelivered(q, after, x) && !IsQuarantined(q, after, x))
            && after.pending.Keys <= q.pending.Keys
  {
    hide Less, Below, Least, Entries, Pick, EntrySet, FateOf, Taken, Accepts, Rejects, InPass;
    var taken, entry := Taken(q.pending.Keys, limit), Entry(x, q.pending[x]);
    var gone := WithFate(q, taken, agentId, attempts, Deliver);
    var bad := WithFate(q, taken, agentId, attempts, Quarantine);
    TakenIff(q, limit, x);
    FateByCode(q.pending[x], agentId, attempts(x));
    PickCount(q.pending, gone, entry);
    PickCount(q.pending, bad, entry);
  }

  lemma OnlyPendingMoves(q: Queue, agentId: string, limit: int, attempts: string -> Attempt, e: Entry)
    requires !(e.name in q.pending && q.pending[e.name] == e.content)
    ensures var after := SendPass(q, agentId, limit, attempts);
            after.delivered[e] == q.delivered[e] && after.failed[e] == q.failed[e]
  {
    hide Entries, Pick, FateOf, Taken;
    var taken := Taken(q.pending.Keys, limit);
    PickCount(q.pending, WithFate(q, taken, agentId, attempts, Deliver), e);
    PickCount(q.pending, WithFate(q, taken, agentId, attempts, Quarantine), e);
  }

  /** No answer, or an answer that asks to try again. */
  predicate Transient(attempt: Attempt) {
    attempt.reply.TransportError? || attempt.reply.code in {408, 425, 429} || attempt.reply.code >= 500
  }

  /** Over any run without a cap a batch of this agent waits as long as the hub is away or asks to try again. */
  lemma {:induction false} WaitsForAnswer(q: Queue, ops: seq<Op>, agentId: string, x: string)
    requires agentId != "" && x in q.pending && Mine(q.pending[x], agentId)
    requires forall i | 0 <= i < |ops| && ops[i].SendOp? :: ops[i].agentId == agentId && Transient(ops[i].attempts(x))
    ensures x in Run(q, ops, 0).pending && Run(q, ops, 0).pending[x] == q.pending[x]
  {
    hide Enqueue, SendPass, InPass;
    if ops != [] {
      var init, last := ops[..|ops| - 1], ops[|ops| - 1];
      assert last == ops[|ops| - 1];
      assert forall i | 0 <= i < |init| :: init[i] == ops[i];
      WaitsForAnswer(q, init, agentId, x);
      var before := Run(q, init, 0);
      match last
      case EnqueueOp(name, content) =>
        if name in before.pending {
          PendingIsNoChange(before, name, content);
        } else {
          EnqueueSizes(before, name, content, 0);
        }
      case SendOp(agent, limit, attempts) =>
        PassByCode(before, agentId, limit, attempts, x);
    }
  }

  lemma PendingIsNoChange(q: Queue, name: string, content: Content)
    requires name in q.pending
    ensures Enqueue(q, name, content, 0) == q
  {
  }
}
