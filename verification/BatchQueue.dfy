/** The durable queue of the agent: batches as files in the directories pending, failed and discarded (runtime.go). */
module BatchQueue {
  import opened StringOrder

  // ----- file names

  /** safeFilename, on identifiers that are not empty. */
  function SafeFilename(id: string): (name: string)
    ensures |name| == |id|
  {
    seq(|id|, i requires 0 <= i < |id| => if SafeChar(id[i]) then id[i] else '_')
  }

  predicate SafeChar(c: char) {
    'a' <= c <= 'z' || 'A' <= c <= 'Z' || '0' <= c <= '9' || c == '-' || c == '_' || c == '.'
  }

  function FileName(id: string): string {
    SafeFilename(id) + ".json"
  }

  /** On identifiers of safe characters no two batches share a file. */
  lemma FileNameInjective(a: string, b: string)
    requires (forall i | 0 <= i < |a| :: SafeChar(a[i])) && (forall i | 0 <= i < |b| :: SafeChar(b[i]))
    requires FileName(a) == FileName(b)
    ensures a == b
  {
    assert |FileName(a)| == |a| + 5 && |FileName(b)| == |b| + 5;
    assert FileName(a)[..|a|] == SafeFilename(a) == a;
    assert FileName(b)[..|b|] == SafeFilename(b) == b;
  }

  function Below(names: set<string>, x: string): set<string> {
    set y | y in names && Less(y, x)
  }

  /** The k least names. */
  function Least(names: set<string>, k: nat): set<string> {
    set x | x in names && |Below(names, x)| < k
  }

  /** queueFiles: all names of a directory, in strictly increasing order. */
  predicate Listing(files: seq<string>, names: set<string>) {
    && (forall i | 0 <= i < |files| :: files[i] in names)
    && (forall x | x in names :: x in files)
    && (forall i, j | 0 <= i < j < |files| :: Less(files[i], files[j]))
  }

  function Elements(s: seq<string>): set<string> {
    set x | x in s
  }

  lemma {:induction false} ElementsOfIncreasing(s: seq<string>)
    requires forall i, j | 0 <= i < j < |s| :: Less(s[i], s[j])
    ensures |Elements(s)| == |s|
  {
    if s != [] {
      var t := s[..|s| - 1];
      ElementsOfIncreasing(t);
      forall i | 0 <= i < |t| ensures t[i] != s[|s| - 1] {
        LessAsymmetric(s[i], s[|s| - 1]);
      }
      assert Elements(s) == Elements(t) + {s[|s| - 1]};
    }
  }

  lemma BelowInListing(files: seq<string>, names: set<string>, i: nat)
    requires Listing(files, names) && i < |files|
    ensures Below(names, files[i]) == Elements(files[..i]) && |Below(names, files[i])| == i
  {
    forall x | x in Below(names, files[i]) ensures x in Elements(files[..i]) {
      var j :| 0 <= j < |files| && files[j] == x;
      LessAsymmetric(x, files[i]);
      assert j < i;
      assert x == files[..i][j];
    }
    assert forall j, k | 0 <= j < k < |files[..i]| :: files[..i][j] == files[j] && files[..i][k] == files[k];
    ElementsOfIncreasing(files[..i]);
  }

  /** The first k files of a listing are the k least names. */
  lemma FirstFilesAreLeast(files: seq<string>, names: set<string>, k: nat)
    requires Listing(files, names) && k <= |files|
    ensures Elements(files[..k]) == Least(names, k) && |Least(names, k)| == k
    ensures |files| == |names|
  {
    forall i | 0 <= i < |files| ensures files[i] in Least(names, k) <==> i < k {
      BelowInListing(files, names, i);
    }
    forall x | x in Least(names, k) ensures x in Elements(files[..k]) {
      var j :| 0 <= j < |files| && files[j] == x;
      assert x == files[..k][j];
    }
    assert forall i, j | 0 <= i < j < |files[..k]| :: files[..k][i] == files[i] && files[..k][j] == files[j];
    ElementsOfIncreasing(files[..k]);
    ElementsOfIncreasing(files);
    assert Elements(files) == names;
  }

  function Insert(files: seq<string>, x: string): seq<string> {
    if files == [] then [x]
    else if Less(x, files[0]) then [x] + files
    else [files[0]] + Insert(files[1..], x)
  }

  predicate Increasing(files: seq<string>) {
    forall i, j | 0 <= i < j < |files| :: Less(files[i], files[j])
  }

  lemma {:induction false} InsertElements(files: seq<string>, x: string)
    ensures Elements(Insert(files, x)) == Elements(files) + {x}
  {
    if files != [] && !Less(x, files[0]) {
      InsertElements(files[1..], x);
      assert Elements(files) == {files[0]} + Elements(files[1..]);
      assert Elements([files[0]] + Insert(files[1..], x)) == {files[0]} + Elements(Insert(files[1..], x));
    } else {
      assert Elements([x] + files) == {x} + Elements(files);
    }
  }

  lemma {:induction false} InsertIncreasing(files: seq<string>, x: string)
    requires Increasing(files) && x !in files
    ensures Increasing(Insert(files, x))
  {
    if files != [] {
      LessTotal(x, files[0]);
      if Less(x, files[0]) {
        forall j | 0 < j < |files| ensures Less(x, files[j]) {
          LessTransitive(x, files[0], files[j]);
        }
      } else {
        var rest := Insert(files[1..], x);
        assert forall i, j | 0 <= i < j < |files[1..]| :: files[1..][i] == files[i + 1] && files[1..][j] == files[j + 1];
        InsertIncreasing(files[1..], x);
        InsertElements(files[1..], x);
        forall j | 0 <= j < |rest| ensures Less(files[0], rest[j]) {
          assert rest[j] in Elements(rest);
          if rest[j] != x {
            var k :| 0 <= k < |files[1..]| && files[1..][k] == rest[j];
          }
        }
      }
    }
  }

  method QueueFiles(names: set<string>) returns (files: seq<string>)
    ensures Listing(files, names) && |files| == |names|
  {
    files := [];
    var rest := names;
    while rest != {}
      invariant rest <= names && Increasing(files) && Elements(files) == names - rest
      decreases rest
    {
      var x :| x in rest;
      assert x !in files by { assert x !in Elements(files); }
      InsertElements(files, x);
      InsertIncreasing(files, x);
      files := Insert(files, x);
      rest := rest - {x};
    }
    ElementsOfIncreasing(files);
    forall i | 0 <= i < |files| ensures files[i] in names {
      assert files[i] in Elements(files);
    }
    forall x | x in names ensures x in files {
      assert x in Elements(files);
    }
  }

  // ----- batches and the state of the queue

  datatype Event = LogLineEvent(path: string, generation: nat, offset: nat, text: string) | OtherEvent(kind: string)

  /** What decoding the header of a queued file gives. */
  datatype Header = Invalid | Agent(id: string)

  datatype Content = Content(header: Header, events: seq<Event>)

  datatype Entry = Entry(name: string, content: Content)

  /** delivered and accepted are bookkeeping: the files removed or archived after the hub took them, and the files ever
      written to pending. */
  datatype Queue = Queue(pending: map<string, Content>, delivered: multiset<Entry>, failed: multiset<Entry>,
                         discarded: multiset<Entry>, accepted: multiset<Entry>)

  function EntrySet(files: map<string, Content>): set<Entry> {
    set x | x in files :: Entry(x, files[x])
  }

  function Entries(files: map<string, Content>): multiset<Entry> {
    multiset(EntrySet(files))
  }

  function Pick(files: map<string, Content>, names: set<string>): map<string, Content> {
    map x | x in names && x in files :: files[x]
  }

  /** Every accepted batch is in exactly one place. */
  predicate Conserved(q: Queue) {
    q.accepted == Entries(q.pending) + q.delivered + q.failed + q.discarded
  }

  lemma EntryIn(files: map<string, Content>, e: Entry)
    ensures e in EntrySet(files) <==> e.name in files && files[e.name] == e.content
  {
    assert e == Entry(e.name, e.content);
  }

  lemma EntriesSplit(files: map<string, Content>, names: set<string>)
    ensures Entries(files) == Entries(files - names) + Entries(Pick(files, names))
  {
    var a, b := EntrySet(files - names), EntrySet(Pick(files, names));
    forall e: Entry
      ensures e in EntrySet(files) <==> e in a + b
      ensures !(e in a && e in b)
    {
      EntryIn(files, e);
      EntryIn(files - names, e);
      EntryIn(Pick(files, names), e);
    }
    assert EntrySet(files) == a + b && a !! b;
  }

  lemma EntriesAdd(files: map<string, Content>, name: string, content: Content)
    requires name !in files
    ensures Entries(files[name := content]) == Entries(files) + multiset{Entry(name, content)}
  {
    var more := files[name := content];
    forall e: Entry ensures e in EntrySet(more) <==> e in EntrySet(files) + {Entry(name, content)} {
      EntryIn(files, e);
      EntryIn(more, e);
    }
    assert EntrySet(more) == EntrySet(files) + {Entry(name, content)};
    assert Entry(name, content) !in EntrySet(files);
  }

  // ----- enqueueing under the cap

  function Overflow(pending: nat, maxFiles: int): nat {
    if maxFiles <= 0 || pending + 1 <= maxFiles then 0
    else if pending + 1 - maxFiles > pending then pending
    else pending + 1 - maxFiles
  }

  function Discard(q: Queue, k: nat): Queue {
    var names := Least(q.pending.Keys, k);
    q.(pending := q.pending - names, discarded := q.discarded + Entries(Pick(q.pending, names)))
  }

  function Enqueue(q: Queue, name: string, content: Content, maxFiles: int): Queue {
    if name in q.pending then q
    else
      var room := Discard(q, Overflow(|q.pending|, maxFiles));
      room.(pending := room.pending[name := content], accepted := q.accepted + multiset{Entry(name, content)})
  }

  lemma DiscardConserves(q: Queue, k: nat)
    requires Conserved(q)
    ensures Conserved(Discard(q, k))
  {
    EntriesSplit(q.pending, Least(q.pending.Keys, k));
  }

  lemma LeastSize(names: set<string>, k: nat)
    requires k <= |names|
    ensures |Least(names, k)| == k && Least(names, k) <= names
    ensures forall x, y | x in Least(names, k) && y in names - Least(names, k) :: Less(x, y)
  {
    var files := SomeListing(names);
    FirstFilesAreLeast(files, names, |files|);
    FirstFilesAreLeast(files, names, k);
    forall x, y | x in Least(names, k) && y in names - Least(names, k) ensures Less(x, y) {
      var i :| 0 <= i < |files| && files[i] == x;
      var j :| 0 <= j < |files| && files[j] == y;
      BelowInListing(files, names, i);
      BelowInListing(files, names, j);
    }
  }

  lemma {:induction false} SomeListing(names: set<string>) returns (files: seq<string>)
    ensures Listing(files, names)
    decreases names
  {
    files := [];
    if names != {} {
      var x :| x in names;
      var rest := SomeListing(names - {x});
      InsertElements(rest, x);
      InsertIncreasing(rest, x);
      files := Insert(rest, x);
      forall i | 0 <= i < |files| ensures files[i] in names {
        assert files[i] in Elements(files);
      }
      forall y | y in names ensures y in files {
        assert y in Elements(files);
      }
    }
  }

  lemma KeysMinus(files: map<string, Content>, names: set<string>)
    requires names <= files.Keys
    ensures (files - names).Keys == files.Keys - names && |files - names| == |files| - |names|
  {
    assert (files - names).Keys == files.Keys - names;
    assert |files - names| == |(files - names).Keys|;
  }

  /** Enqueueing keeps the cap and loses nothing. A batch that is already pending changes nothing. A new one is written,
      and discards no file if there is room for it; otherwise it discards least files, as few as leave the cap reached. */
  lemma EnqueueKeepsCapAndBatches(q: Queue, name: string, content: Content, maxFiles: int)
    requires Conserved(q)
    ensures var after := Enqueue(q, name, content, maxFiles);
            && Conserved(after) && name in after.pending
            && (0 < maxFiles && |q.pending| <= maxFiles ==> |after.pending| <= maxFiles)
            && (name in q.pending ==> after == q)
            && (name !in q.pending ==>
                  var gone := q.pending.Keys - after.pending.Keys;
                  && after.pending[name] == content
                  && (maxFiles <= 0 || |q.pending| + 1 <= maxFiles ==> after.pending == q.pending[name := content])
                  && (0 < maxFiles < |q.pending| + 1 ==>
                        |after.pending| == maxFiles && |gone| == |q.pending| + 1 - maxFiles)
                  && after.discarded == q.discarded + Entries(Pick(q.pending, gone))
                  && (forall x, y | x in gone && y in q.pending.Keys - gone :: Less(x, y)))
  {
    hide Less, Least, Entries, Pick, EntrySet, Below;
    if name !in q.pending {
      var k := Overflow(|q.pending|, maxFiles);
      assert |q.pending| == |q.pending.Keys|;
      LeastSize(q.pending.Keys, k);
      DiscardConserves(q, k);
      var room := Discard(q, k);
      KeysMinus(q.pending, Least(q.pending.Keys, k));
      EntriesAdd(room.pending, name, content);
      KeysPlus(room.pending, name, content);
      assert q.pending.Keys - (room.pending.Keys + {name}) == Least(q.pending.Keys, k);
      EnqueueSizes(q, name, content, maxFiles);
    }
  }

  /** A new batch is added where there is room for it, and otherwise brings the queue to its cap. */
  lemma EnqueueSizes(q: Queue, name: string, content: Content, maxFiles: int)
    requires name !in q.pending
    ensures var after := Enqueue(q, name, content, maxFiles);
            && (maxFiles <= 0 || |q.pending| + 1 <= maxFiles ==> after.pending == q.pending[name := content])
            && (0 < maxFiles < |q.pending| + 1 ==> |after.pending| == maxFiles)
  {
    var k := Overflow(|q.pending|, maxFiles);
    assert |q.pending| == |q.pending.Keys|;
    LeastSize(q.pending.Keys, k);
    hide Less, Least, Below;
    KeysMinus(q.pending, Least(q.pending.Keys, k));
    KeysPlus(Discard(q, k).pending, name, content);
    DiscardNone(q);
  }

  lemma KeysPlus(files: map<string, Content>, name: string, content: Content)
    requires name !in files
    ensures files[name := content].Keys == files.Keys + {name} && |files[name := content]| == |files| + 1
  {
    assert files[name := content].Keys == files.Keys + {name};
    assert |files| == |files.Keys|;
  }

  // ----- one send pass

  datatype Reply = TransportError | Status(code: int)

  /** What happens to one file of a pass outside the program: can it be read, what does the hub answer, does the rename or
      removal work, does the cleanup of the archive work. */
  datatype Attempt = Attempt(readable: bool, reply: Reply, moved: bool, cleaned: bool)

  datatype Fate = Stay | Deliver | Quarantine

  /** hubSendError.Permanent, on answers that are errors. */
  predicate Permanent(code: int) {
    code != 408 && code != 425 && code != 429 && code < 500 && code >= 400
  }

  function FateOf(content: Content, agentId: string, attempt: Attempt): Fate {
    if !attempt.readable then Stay
    else if content.header == Invalid || content.header.id == "" || content.header.id != agentId then
      if attempt.moved then Quarantine else Stay
    else match attempt.reply
      case TransportError => Stay
      case Status(code) =>
        if 200 <= code < 300 then (if attempt.moved then Deliver else Stay)
        else if Permanent(code) && attempt.moved then Quarantine
        else Stay
  }

  function Taken(names: set<string>, limit: int): set<string> {
    if 0 < limit < |names| then Least(names, limit) else names
  }

  function WithFate(q: Queue, names: set<string>, agentId: string, attempts: string -> Attempt, fate: Fate): set<string> {
    set x | x in names && x in q.pending && FateOf(q.pending[x], agentId, attempts(x)) == fate
  }

  function Settle(q: Queue, gone: set<string>, bad: set<string>): Queue {
    q.(pending := q.pending - (gone + bad),
       delivered := q.delivered + Entries(Pick(q.pending, gone)),
       failed := q.failed + Entries(Pick(q.pending, bad)))
  }

  /** The queue after the given files have been tried. */
  function Try(q: Queue, names: set<string>, agentId: string, attempts: string -> Attempt): Queue {
    Settle(q, WithFate(q, names, agentId, attempts, Deliver), WithFate(q, names, agentId, attempts, Quarantine))
  }

  function SendPass(q: Queue, agentId: string, limit: int, attempts: string -> Attempt): Queue {
    Try(q, Taken(q.pending.Keys, limit), agentId, attempts)
  }

  lemma SettleConserves(q: Queue, gone: set<string>, bad: set<string>)
    requires gone !! bad && gone + bad <= q.pending.Keys
    ensures Conserved(q) ==> Conserved(Settle(q, gone, bad))
    ensures Settle(q, gone, bad).pending.Keys == q.pending.Keys - (gone + bad)
    ensures |Settle(q, gone, bad).pending| == |q.pending| - |gone| - |bad|
  {
    hide Entries, Pick, EntrySet;
    EntriesSplit(q.pending, gone);
    EntriesSplit(q.pending - gone, bad);
    assert q.pending - gone - bad == q.pending - (gone + bad);
    PickAfterRemoval(q.pending, gone, bad);
    KeysMinus(q.pending, gone + bad);
    assert |gone + bad| == |gone| + |bad|;
  }

  lemma PickAfterRemoval(files: map<string, Content>, gone: set<string>, bad: set<string>)
    requires gone !! bad
    ensures Pick(files - gone, bad) == Pick(files, bad)
  {
  }

  lemma PickGrows(files: map<string, Content>, names: set<string>, x: string)
    requires x in files && x !in names
    ensures Entries(Pick(files, names + {x})) == Entries(Pick(files, names)) + multiset{Entry(x, files[x])}
  {
    hide Entries;
    assert Pick(files, names + {x}) == Pick(files, names)[x := files[x]];
    EntriesAdd(Pick(files, names), x, files[x]);
  }

  lemma FatesDisjoint(q: Queue, names: set<string>, agentId: string, attempts: string -> Attempt)
    ensures WithFate(q, names, agentId, attempts, Deliver) !! WithFate(q, names, agentId, attempts, Quarantine)
    ensures WithFate(q, names, agentId, attempts, Deliver) + WithFate(q, names, agentId, attempts, Quarantine)
         <= q.pending.Keys
  {
    hide FateOf;
  }

  /** A pass moves batches and neither invents nor loses one. */
  lemma SendPassConserves(q: Queue, agentId: string, limit: int, attempts: string -> Attempt)
    requires Conserved(q)
    ensures var after := SendPass(q, agentId, limit, attempts);
            && Conserved(after) && after.accepted == q.accepted && after.discarded == q.discarded
            && after.pending.Keys <= q.pending.Keys && |after.pending| <= |q.pending|
            && (forall x | x in after.pending :: after.pending[x] == q.pending[x])
  {
    hide WithFate, Entries, Pick;
    var names := Taken(q.pending.Keys, limit);
    FatesDisjoint(q, names, agentId, attempts);
    SettleConserves(q, WithFate(q, names, agentId, attempts, Deliver), WithFate(q, names, agentId, attempts, Quarantine));
  }

  lemma WithFateGrows(q: Queue, names: set<string>, x: string, agentId: string, attempts: string -> Attempt, fate: Fate)
    requires x in q.pending
    ensures WithFate(q, names + {x}, agentId, attempts, fate)
         == WithFate(q, names, agentId, attempts, fate)
            + if FateOf(q.pending[x], agentId, attempts(x)) == fate then {x} else {}
  {
    hide FateOf;
  }

  /** Trying one more file changes the queue by the fate of that file alone. */
  lemma TryOneMore(q: Queue, names: set<string>, x: string, agentId: string, attempts: string -> Attempt)
    requires x in q.pending && x !in names
    ensures var before := Try(q, names, agentId, attempts);
            var after := Try(q, names + {x}, agentId, attempts);
            var entry := multiset{Entry(x, q.pending[x])};
            && x in before.pending && before.pending[x] == q.pending[x]
            && match FateOf(q.pending[x], agentId, attempts(x))
               case Stay => after == before
               case Deliver => after == before.(pending := before.pending - {x}, delivered := before.delivered + entry)
               case Quarantine => after == before.(pending := before.pending - {x}, failed := before.failed + entry)
  {
    WithFateGrows(q, names, x, agentId, attempts, Deliver);
    WithFateGrows(q, names, x, agentId, attempts, Quarantine);
    var gone := WithFate(q, names, agentId, attempts, Deliver);
    var bad := WithFate(q, names, agentId, attempts, Quarantine);
    assert x !in gone && x !in bad;
    hide WithFate, Settle, FateOf;
    assert gone + {} == gone && bad + {} == bad;
    SettleOneMore(q, gone, bad, x);
  }

  lemma SettleOneMore(q: Queue, gone: set<string>, bad: set<string>, x: string)
    requires x in q.pending && x !in gone && x !in bad
    ensures var before := Settle(q, gone, bad);
            var entry := multiset{Entry(x, q.pending[x])};
            && x in before.pending && before.pending[x] == q.pending[x]
            && Settle(q, gone + {x}, bad)
               == before.(pending := before.pending - {x}, delivered := before.delivered + entry)
            && Settle(q, gone, bad + {x})
               == before.(pending := before.pending - {x}, failed := before.failed + entry)
  {
    hide Entries, Pick;
    PickGrows(q.pending, gone, x);
    PickGrows(q.pending, bad, x);
    MinusOneMore(q.pending, gone + bad, gone + {x} + bad, x);
    MinusOneMore(q.pending, gone + bad, gone + (bad + {x}), x);
  }

  lemma MinusOneMore(files: map<string, Content>, names: set<string>, more: set<string>, x: string)
    requires more == names + {x}
    ensures files - more == files - names - {x}
  {
  }

  // ----- runs

  datatype Op = EnqueueOp(name: string, content: Content)
              | SendOp(agentId: string, limit: int, attempts: string -> Attempt)

  function Next(q: Queue, op: Op, maxFiles: int): Queue {
    match op
    case EnqueueOp(name, content) => Enqueue(q, name, content, maxFiles)
    case SendOp(agentId, limit, attempts) => SendPass(q, agentId, limit, attempts)
  }

  ghost function Run(q: Queue, ops: seq<Op>, maxFiles: int): Queue {
    if ops == [] then q else Next(Run(q, ops[..|ops| - 1], maxFiles), ops[|ops| - 1], maxFiles)
  }

  /** Over any run of enqueues and sends, every accepted batch stays in exactly one of pending, delivered, failed and
      discarded, and a queue within its cap stays within it. */
  lemma {:induction false} RunKeepsCapAndBatches(q: Queue, ops: seq<Op>, maxFiles: int)
    requires Conserved(q)
    ensures Conserved(Run(q, ops, maxFiles))
    ensures 0 < maxFiles && |q.pending| <= maxFiles ==> |Run(q, ops, maxFiles).pending| <= maxFiles
    ensures q.accepted <= Run(q, ops, maxFiles).accepted
  {
    hide Enqueue, SendPass, Conserved;
    if ops != [] {
      RunKeepsCapAndBatches(q, ops[..|ops| - 1], maxFiles);
      var before := Run(q, ops[..|ops| - 1], maxFiles);
      match ops[|ops| - 1]
      case EnqueueOp(name, content) =>
        EnqueueKeepsCapAndBatches(before, name, content, maxFiles);
        EnqueueAccepts(before, name, content, maxFiles);
      case SendOp(agentId, limit, attempts) =>
        SendPassConserves(before, agentId, limit, attempts);
    }
  }

  lemma EnqueueAccepts(q: Queue, name: string, content: Content, maxFiles: int)
    ensures Enqueue(q, name, content, maxFiles).accepted
         == q.accepted + if name in q.pending then multiset{} else multiset{Entry(name, content)}
  {
  }

  // ----- steps of the loops

  lemma DiscardNone(q: Queue)
    ensures Discard(q, 0) == q
  {
    assert Least(q.pending.Keys, 0) == {};
    assert Entries(Pick(q.pending, {})) == multiset{} by { assert EntrySet(Pick(q.pending, {})) == {}; }
    assert q.pending - {} == q.pending;
  }

  lemma LeastOneMore(files: seq<string>, names: set<string>, i: nat)
    requires Listing(files, names) && i < |files|
    ensures Least(names, i + 1) == Least(names, i) + {files[i]} && files[i] !in Least(names, i)
  {
    FirstFilesAreLeast(files, names, i);
    FirstFilesAreLeast(files, names, i + 1);
    BelowInListing(files, names, i);
    assert files[..i + 1] == files[..i] + [files[i]];
  }

  lemma DiscardOneMore(q: Queue, files: seq<string>, i: nat)
    requires Listing(files, q.pending.Keys) && i < |files|
    ensures var before := Discard(q, i);
            var x := files[i];
            && x in before.pending && before.pending[x] == q.pending[x]
            && Discard(q, i + 1) == before.(pending := before.pending - {x},
                                           discarded := before.discarded + multiset{Entry(x, q.pending[x])})
  {
    var names := q.pending.Keys;
    LeastOneMore(files, names, i);
    hide Least, Entries, Pick, Less, EntrySet, Below;
    PickGrows(q.pending, Least(names, i), files[i]);
    MinusOneMore(q.pending, Least(names, i), Least(names, i + 1), files[i]);
  }

  lemma TryNone(q: Queue, agentId: string, attempts: string -> Attempt)
    ensures Try(q, {}, agentId, attempts) == q
  {
    assert forall f: Fate :: WithFate(q, {}, agentId, attempts, f) == {};
    assert Entries(Pick(q.pending, {})) == multiset{} by { assert EntrySet(Pick(q.pending, {})) == {}; }
    assert q.pending - ({} + {}) == q.pending;
  }
}
