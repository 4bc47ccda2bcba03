/** The methods of the agent's runtime that change the queue directories (runtime.go). */
module AgentRuntime {
  import opened Basics
  import opened BatchQueue
  import opened StringOrder

  datatype SendResult = SendResult(pendingBefore: nat, pendingAfter: nat, sent: nat, failed: nat)

  /** Why SendQueuedAll returned. */
  datatype Stop = Drained | NoProgress | Cancelled | BudgetSpent

  /** What trying one file does, and whether it counts as sent. */
  predicate Sent(before: Queue, after: Queue, path: string, agentId: string, attempt: Attempt, retain: bool, ok: bool)
    requires path in before.pending
  {
    var entry := multiset{Entry(path, before.pending[path])};
    match FateOf(before.pending[path], agentId, attempt)
    case Stay => after == before && !ok
    case Quarantine => after == before.(pending := before.pending - {path}, failed := before.failed + entry) && !ok
    case Deliver =>
      && after == before.(pending := before.pending - {path}, delivered := before.delivered + entry)
      && (ok <==> attempt.cleaned || !retain)
  }

  /** The counts of one pass: all files it came to, and among them those delivered, if no cleanup fails. */
  ghost predicate Counts(q: Queue, agentId: string, limit: int, attempts: string -> Attempt, retain: bool, result: SendResult) {
    var taken := Taken(q.pending.Keys, limit);
    var gone := |WithFate(q, taken, agentId, attempts, Deliver)|;
    && result.sent + result.failed == |taken| && result.sent <= gone
    && ((forall x :: attempts(x).cleaned) || !retain ==> result.sent == gone)
  }

  /** Between two moments of a drain: batches are only moved, none is written or discarded; every file sent has left the
      directory, and if no cleanup fails exactly the delivered ones count as sent; at least the quarantined ones count as
      failed. */
  ghost predicate Accounts(start: Queue, now: Queue, total: SendResult, clean: bool) {
    && (Conserved(start) ==> Conserved(now))
    && now.accepted == start.accepted && now.discarded == start.discarded && now.pending.Keys <= start.pending.Keys
    && total.pendingBefore == |start.pending| && total.sent <= |start.pending| - |now.pending|
    && (clean ==> total.sent == |now.delivered| - |start.delivered|)
    && total.failed >= |now.failed| - |start.failed|
  }

  class QueueDir {
    var pending: map<string, Content>
    var failed: multiset<Entry>
    var discarded: multiset<Entry>
    ghost var delivered: multiset<Entry>
    ghost var accepted: multiset<Entry>

    ghost function View(): Queue
      reads this
    {
      Queue(pending, delivered, failed, discarded, accepted)
    }

    constructor ()
      ensures View() == Queue(map[], multiset{}, multiset{}, multiset{}, multiset{})
    {
      pending := map[];
      failed, discarded, delivered, accepted := multiset{}, multiset{}, multiset{}, multiset{};
    }

    /** enforcePendingQueueLimit for one incoming file; `renames` is the number of renames that succeed. */
    method EnforcePendingQueueLimit(maxFiles: int, renames: nat) returns (ok: bool)
      modifies this
      ensures ok <==> Overflow(|old(pending)|, maxFiles) <= renames
      ensures View() == Discard(old(View()), if ok then Overflow(|old(pending)|, maxFiles) else renames)
      ensures maxFiles <= 0 || |old(pending)| + 1 <= maxFiles ==> ok && View() == old(View())
      ensures ok && 0 < maxFiles < |old(pending)| + 1 ==> |pending| == maxFiles - 1
    {
      DiscardNone(View());
      hide Less, Least, Discard;
      if maxFiles <= 0 {
        return true;
      }
      var files := QueueFiles(pending.Keys);
      assert |files| == |pending|;
      if |files| + 1 <= maxFiles {
        return true;
      }
      var toDiscard := |files| + 1 - maxFiles;
      if toDiscard > |files| {
        toDiscard := |files|;
      }
      ghost var start := View();
      for i := 0 to toDiscard
        invariant View() == Discard(start, i) && i <= renames && |pending| == |files| - i
      {
        if i == renames {
          return false;
        }
        DiscardOneMore(start, files, i);
        var path := files[i];
        discarded := discarded + multiset{Entry(path, pending[path])};
        pending := pending - {path};
      }
      ok := true;
    }

    /** EnqueueEvents; `writable` says whether the batch file can be written. A failed call has discarded some of the least
        files, no more. */
    method EnqueueEvents(batchId: string, agentId: string, events: seq<Event>, maxFiles: int, renames: nat, writable: bool)
      returns (ok: bool, ghost discards: nat)
      modifies this
      ensures ok <==> events != [] && (FileName(batchId) in old(pending) ||
                                       (Overflow(|old(pending)|, maxFiles) <= renames && writable))
      ensures ok ==> View() == Enqueue(old(View()), FileName(batchId), Content(Agent(agentId), events), maxFiles)
      ensures !ok ==> View() == Discard(old(View()), discards) && discards <= Overflow(|old(pending)|, maxFiles)
      ensures ok && FileName(batchId) !in old(pending) ==>
                if 0 < maxFiles < |old(pending)| + 1 then |pending| == maxFiles
                else pending == old(pending)[FileName(batchId) := Content(Agent(agentId), events)]
    {
      hide Less, Least, Overflow, Discard;
      DiscardNone(View());
      discards := 0;
      if events == [] {
        return false, 0;
      }
      var content := Content(Agent(agentId), events);
      var path := FileName(batchId);
      if path in pending {
        return true, 0;
      }
      hide Enqueue;
      EnqueueSizes(View(), path, content, maxFiles);
      EnqueueIs(View(), path, content, maxFiles);
      discards := if Overflow(|pending|, maxFiles) <= renames then Overflow(|pending|, maxFiles) else renames;
      var room := EnforcePendingQueueLimit(maxFiles, renames);
      if !room || !writable {
        return false, discards;
      }
      pending := pending[path := content];
      accepted := accepted + multiset{Entry(path, content)};
      ok := true;
    }

    /** The body of SendQueued's loop. A file that was archived counts as failed when the cleanup of the archive fails. */
    method SendFile(path: string, agentId: string, attempt: Attempt, retain: bool) returns (ok: bool)
      requires path in pending
      modifies this
      ensures Sent(old(View()), View(), path, agentId, attempt, retain, ok)
    {
      var content := pending[path];
      ok := false;
      if !attempt.readable {
        return;
      }
      if content.header == Invalid || content.header.id == "" || content.header.id != agentId {
        if attempt.moved {
          failed := failed + multiset{Entry(path, content)};
          pending := pending - {path};
        }
        return;
      }
      if attempt.reply.TransportError? {
        return;
      }
      var code := attempt.reply.code;
      if code < 200 || code >= 300 {
        if Permanent(code) && attempt.moved {
          failed := failed + multiset{Entry(path, content)};
          pending := pending - {path};
        }
        return;
      }
      if attempt.moved {
        delivered := delivered + multiset{Entry(path, content)};
        pending := pending - {path};
        ok := !retain || attempt.cleaned;
      }
    }

    /** SendQueued: one pass over at most `limit` files, least names first. */
    method SendQueued(agentId: string, limit: int, attempts: string -> Attempt, retain: bool) returns (result: SendResult)
      modifies this
      ensures View() == SendPass(old(View()), agentId, limit, attempts)
      ensures result.pendingBefore == |old(pending)| && result.pendingAfter == |pending|
      ensures Counts(old(View()), agentId, limit, attempts, retain, result)
    {
      hide Less, Least, FateOf, WithFate, Try, Sent;
      ghost var start, clean := View(), (forall x :: attempts(x).cleaned) || !retain;
      var files := QueueFiles(pending.Keys);
      var pendingBefore := |files|;
      if 0 < limit < |files| {
        FirstFilesAreLeast(files, pending.Keys, limit);
        files := files[..limit];
      }
      TakenIsPrefix(pending.Keys, files, limit);
      TryNone(start, agentId, attempts);
      NoneWithFate(start, agentId, attempts);
      assert Elements(files[..0]) == {};
      hide Elements;
      var sent, fails := 0, 0;
      for i := 0 to |files|
        invariant View() == Try(start, Elements(files[..i]), agentId, attempts)
        invariant sent + fails == i
        invariant sent <= |WithFate(start, Elements(files[..i]), agentId, attempts, Deliver)|
        invariant clean ==> sent == |WithFate(start, Elements(files[..i]), agentId, attempts, Deliver)|
      {
        var path := files[i];
        NextFile(files, i);
        TryOneMore(start, Elements(files[..i]), path, agentId, attempts);
        var ok := SendFile(path, agentId, attempts(path), retain);
        SentOneMore(start, Elements(files[..i]), path, agentId, attempts, View(), retain, ok);
        if ok {
          sent := sent + 1;
        } else {
          fails := fails + 1;
        }
      }
      assert files[..|files|] == files;
      result := SendResult(pendingBefore, |pending|, sent, fails);
    }

    /** SendQueuedAll with nobody enqueueing meanwhile. Pass n sees the outcomes attempts(n, .), and cancelled(n) and
        elapsed(n) are what the context and the clock say after it. */
    method SendQueuedAll(agentId: string, limit: int, budget: int, attempts: (nat, string) -> Attempt, retain: bool,
                         cancelled: nat -> bool, elapsed: nat -> int)
      returns (total: SendResult, stop: Stop, passes: nat, removedByLastPass: nat)
      modifies this
      ensures Accounts(old(View()), View(), total, Clean(attempts, retain))
      ensures total.pendingAfter == |pending|
      ensures 1 <= passes <= |old(pending)| + 1
      ensures stop == Drained <==> pending == map[]
      ensures stop == NoProgress <==> pending != map[] && removedByLastPass == 0
      ensures stop == Cancelled ==> cancelled(passes - 1)
      ensures stop == BudgetSpent ==> 0 < budget <= elapsed(passes - 1)
      ensures budget <= 0 && (forall n :: !cancelled(n)) && AllSettle(attempts) ==> pending == map[]
    {
      hide SendPass, Accounts, Counts, Clean, AllSettle;
      ghost var start := View();
      NothingYet(start);
      passes := 0;
      total := SendResult(|pending|, |pending|, 0, 0);
      while true
        invariant Accounts(start, View(), total, Clean(attempts, retain))
        invariant passes <= |start.pending| - |pending|
        decreases |pending|
      {
        ghost var q := View();
        var n := passes;
        var outcomes := x => attempts(n, x);
        var result := SendQueued(agentId, limit, outcomes, retain);
        passes := passes + 1;
        AccountsGrow(start, q, agentId, limit, attempts, n, outcomes, retain, total, result);
        total := SendResult(total.pendingBefore, result.pendingAfter, total.sent + result.sent, total.failed + result.failed);
        removedByLastPass := result.pendingBefore - result.pendingAfter;
        if result.pendingAfter == 0 {
          return total, Drained, passes, removedByLastPass;
        }
        if result.sent == 0 && result.pendingAfter >= result.pendingBefore {
          return total, NoProgress, passes, removedByLastPass;
        }
        if cancelled(passes - 1) {
          return total, Cancelled, passes, removedByLastPass;
        }
        if budget > 0 && elapsed(passes - 1) >= budget {
          return total, BudgetSpent, passes, removedByLastPass;
        }
      }
    }
  }

  lemma EnqueueIs(q: Queue, name: string, content: Content, maxFiles: int)
    requires name !in q.pending
    ensures var room := Discard(q, Overflow(|q.pending|, maxFiles));
            && Enqueue(q, name, content, maxFiles)
               == room.(pending := room.pending[name := content],
                        accepted := q.accepted + multiset{Entry(name, content)})
            && room.accepted == q.accepted
  {
  }

  /** The hub answers, and answers with a success or a permanent rejection; the file can be read and moved. */
  predicate Settles(attempt: Attempt) {
    attempt.readable && attempt.moved && attempt.reply.Status?
    && (200 <= attempt.reply.code < 300 || Permanent(attempt.reply.code))
  }

  /** A pass removes what it delivers and what it quarantines; when every attempt settles its file, that is at least one
      file of a queue that is not empty. */
  lemma PassCounts(q: Queue, agentId: string, limit: int, attempts: string -> Attempt)
    ensures var taken := Taken(q.pending.Keys, limit);
            |SendPass(q, agentId, limit, attempts).pending|
            == |q.pending| - |WithFate(q, taken, agentId, attempts, Deliver)|
                           - |WithFate(q, taken, agentId, attempts, Quarantine)|
    ensures q.pending != map[] && (forall x :: Settles(attempts(x))) ==>
              |SendPass(q, agentId, limit, attempts).pending| < |q.pending|
  {
    hide Less, Least, Below, Entries, Pick, EntrySet, Taken, Permanent, Conserved;
    var taken := Taken(q.pending.Keys, limit);
    var gone := WithFate(q, taken, agentId, attempts, Deliver);
    var bad := WithFate(q, taken, agentId, attempts, Quarantine);
    FatesDisjoint(q, taken, agentId, attempts);
    SettleConserves(q, gone, bad);
    if q.pending != map[] && forall x :: Settles(attempts(x)) {
      var x := TakenNotEmpty(q, limit);
      assert Settles(attempts(x));
      assert x in gone || x in bad;
    }
  }

  lemma NothingYet(start: Queue)
    ensures forall clean :: Accounts(start, start, SendResult(|start.pending|, |start.pending|, 0, 0), clean)
  {
  }

  /** One more pass. */
  lemma AccountsGrow(start: Queue, q: Queue, agentId: string, limit: int, attempts: (nat, string) -> Attempt, n: nat,
                     outcomes: string -> Attempt, retain: bool, total: SendResult, result: SendResult)
    requires Accounts(start, q, total, Clean(attempts, retain)) && Counts(q, agentId, limit, outcomes, retain, result)
    requires forall x :: outcomes(x) == attempts(n, x)
    ensures var after := SendPass(q, agentId, limit, outcomes);
            && Accounts(start, after,
                        SendResult(total.pendingBefore, result.pendingAfter, total.sent + result.sent,
                                   total.failed + result.failed),
                        Clean(attempts, retain))
            && |after.pending| + result.sent <= |q.pending|
            && (q.pending != map[] && AllSettle(attempts) ==> |after.pending| < |q.pending|)
  {
    hide Conserved, SendPass, WithFate, Taken, Settles;
    PassCounts(q, agentId, limit, outcomes);
    PassIsMove(q, agentId, limit, outcomes);
    PassMoves(q, agentId, limit, outcomes);
  }

  /** No cleanup of the archive fails, or there is no archive. */
  ghost predicate Clean(attempts: (nat, string) -> Attempt, retain: bool) {
    (forall n, x :: attempts(n, x).cleaned) || !retain
  }

  ghost predicate AllSettle(attempts: (nat, string) -> Attempt) {
    forall n, x :: Settles(attempts(n, x))
  }

  /** What a pass moves is what it delivers and what it quarantines. */
  lemma PassMoves(q: Queue, agentId: string, limit: int, attempts: string -> Attempt)
    ensures var taken, after := Taken(q.pending.Keys, limit), SendPass(q, agentId, limit, attempts);
            var gone := WithFate(q, taken, agentId, attempts, Deliver);
            var bad := WithFate(q, taken, agentId, attempts, Quarantine);
            && |after.delivered| == |q.delivered| + |gone| && |after.failed| == |q.failed| + |bad|
            && |gone| + |bad| <= |taken|
  {
    hide Less, Least, Below, FateOf, Entries, Pick, Taken;
    var taken := Taken(q.pending.Keys, limit);
    var gone := WithFate(q, taken, agentId, attempts, Deliver);
    var bad := WithFate(q, taken, agentId, attempts, Quarantine);
    FatesDisjoint(q, taken, agentId, attempts);
    PickSize(q.pending, gone);
    PickSize(q.pending, bad);
    assert |gone + bad| == |gone| + |bad|;
    SubsetSize(gone + bad, taken);
  }

  lemma PickSize(files: map<string, Content>, names: set<string>)
    requires names <= files.Keys
    ensures |Entries(Pick(files, names))| == |names|
    decreases names
  {
    if names == {} {
      assert EntrySet(Pick(files, {})) == {};
    } else {
      var x :| x in names;
      PickSize(files, names - {x});
      PickGrows(files, names - {x}, x);
      assert names - {x} + {x} == names;
    }
  }

  lemma TakenNotEmpty(q: Queue, limit: int) returns (x: string)
    requires q.pending != map[]
    ensures x in Taken(q.pending.Keys, limit) && x in q.pending
  {
    assert q.pending.Keys != {};
    if 0 < limit < |q.pending.Keys| {
      LeastSize(q.pending.Keys, limit);
      assert Least(q.pending.Keys, limit) != {};
      x :| x in Least(q.pending.Keys, limit);
    } else {
      x :| x in q.pending.Keys;
    }
  }

  lemma PassIsMove(q: Queue, agentId: string, limit: int, attempts: string -> Attempt)
    ensures var after := SendPass(q, agentId, limit, attempts);
            && (Conserved(q) ==> Conserved(after))
            && after.accepted == q.accepted && after.discarded == q.discarded && after.pending.Keys <= q.pending.Keys
  {
    if Conserved(q) {
      SendPassConserves(q, agentId, limit, attempts);
    }
    assert SendPass(q, agentId, limit, attempts).pending.Keys <= q.pending.Keys;
  }

  ghost predicate Prefix(names: set<string>, files: seq<string>, limit: int) {
    && Increasing(files)
    && Elements(files) == Taken(names, limit)
    && (forall i | 0 <= i < |files| :: files[i] in names)
  }

  lemma TakenIsPrefix(names: set<string>, files: seq<string>, limit: int)
    requires Increasing(files) && (forall i | 0 <= i < |files| :: files[i] in names)
    requires if 0 < limit < |names| then Elements(files) == Least(names, limit) else Listing(files, names)
    ensures Prefix(names, files, limit)
    ensures |Taken(names, limit)| == |files|
  {
    hide Less, Least;
    ElementsOfIncreasing(files);
    if !(0 < limit < |names|) {
      assert Elements(files) == names;
    }
  }

  lemma NextFile(files: seq<string>, i: nat)
    requires Increasing(files) && i < |files|
    ensures files[i] !in Elements(files[..i]) && Elements(files[..i + 1]) == Elements(files[..i]) + {files[i]}
  {
    assert files[..i + 1] == files[..i] + [files[i]];
    forall j | 0 <= j < i ensures files[j] != files[i] {
      LessAsymmetric(files[j], files[i]);
    }
  }

  lemma NoneWithFate(q: Queue, agentId: string, attempts: string -> Attempt)
    ensures WithFate(q, {}, agentId, attempts, Deliver) == {}
  {
  }

  lemma SentOneMore(q: Queue, names: set<string>, x: string, agentId: string, attempts: string -> Attempt, after: Queue,
                    retain: bool, ok: bool)
    requires x in q.pending && x !in names && x in Try(q, names, agentId, attempts).pending
    requires Sent(Try(q, names, agentId, attempts), after, x, agentId, attempts(x), retain, ok)
    ensures after == Try(q, names + {x}, agentId, attempts)
    ensures var before, more := |WithFate(q, names, agentId, attempts, Deliver)|,
                                |WithFate(q, names + {x}, agentId, attempts, Deliver)|;
            (ok ==> more == before + 1) && before <= more && (attempts(x).cleaned || !retain ==> (more > before ==> ok))
            && more <= before + 1
  {
    TryOneMore(q, names, x, agentId, attempts);
    WithFateGrows(q, names, x, agentId, attempts, Deliver);
    assert x !in WithFate(q, names, agentId, attempts, Deliver);
    hide FateOf, WithFate, Try;
  }
}
