/** All threads of automatic correlation: any submissions, any interleaving of critical sections and invocations. */
module SingleFlightMachine {
  import opened SingleFlight

  /** Where a runner is: about to invoke CorrelateEvents, inside it, or back from it (with or without an error). */
  datatype Phase = Ready | Invoking | Back

  datatype Runner = Runner(current: Input, phase: Phase)

  datatype Event = Submitted(input: Input) | Invoked(input: Input)

  /** threads are the runners, by thread; log is what has happened, in order. */
  datatype State = State(runs: Runs, threads: map<nat, Runner>, log: seq<Event>)

  datatype Step =
    | Submit(thread: nat, input: Input)
    | Invoke(thread: nat)
    | Return(thread: nat)
    | Complete(thread: nat)

  predicate Enabled(s: State, step: Step) {
    match step
    case Submit(t, input) => t !in s.threads
    case Invoke(t) => t in s.threads && s.threads[t].phase == Ready
    case Return(t) => t in s.threads && s.threads[t].phase == Invoking
    case Complete(t) => t in s.threads && s.threads[t].phase == Back
  }

  function Next(s: State, step: Step): State
    requires Enabled(s, step)
  {
    match step
    case Submit(t, input) =>
      State(AfterBegin(s.runs, input),
            if input.scope in s.runs then s.threads else s.threads[t := Runner(input, Ready)],
            s.log + [Submitted(input)])
    case Invoke(t) =>
      s.(threads := s.threads[t := s.threads[t].(phase := Invoking)], log := s.log + [Invoked(s.threads[t].current)])
    case Return(t) =>
      s.(threads := s.threads[t := s.threads[t].(phase := Back)])
    case Complete(t) =>
      var scope := s.threads[t].current.scope;
      s.(runs := AfterComplete(s.runs, scope),
         threads := if scope in s.runs && s.runs[scope].Waiting?
                    then s.threads[t := Runner(s.runs[scope].input, Ready)]
                    else s.threads - {t})
  }

  ghost function Run(steps: seq<Step>): State
    requires RunEnabled(steps)
    decreases |steps|, 1
  {
    if steps == [] then State(map[], map[], []) else Next(Run(steps[..|steps| - 1]), steps[|steps| - 1])
  }

  ghost predicate RunEnabled(steps: seq<Step>)
    decreases |steps|, 0
  {
    steps == [] || (RunEnabled(steps[..|steps| - 1]) && Enabled(Run(steps[..|steps| - 1]), steps[|steps| - 1]))
  }

  // ----- one runner per scope

  ghost predicate HasRunner(threads: map<nat, Runner>, c: Scope) {
    exists t :: t in threads && threads[t].current.scope == c
  }

  predicate DistinctScopes(threads: map<nat, Runner>) {
    forall t, u | t in threads && u in threads && t != u :: threads[t].current.scope != threads[u].current.scope
  }

  /** An entry exists for exactly the scopes that have a runner, and no scope has two. */
  ghost predicate OneRunner(s: State) {
    && (forall c :: c in s.runs <==> HasRunner(s.threads, c))
    && DistinctScopes(s.threads)
    && (forall c | c in s.runs && s.runs[c].Waiting? :: s.runs[c].input.scope == c)
  }

  lemma RunnerHasEntry(s: State, t: nat)
    requires OneRunner(s) && t in s.threads
    ensures s.threads[t].current.scope in s.runs
  {
    assert HasRunner(s.threads, s.threads[t].current.scope);
  }

  /** A step that changes one thread and keeps its scope keeps the scopes. */
  lemma SameScopes(threads: map<nat, Runner>, t: nat, r: Runner)
    requires t in threads && r.current.scope == threads[t].current.scope && DistinctScopes(threads)
    ensures DistinctScopes(threads[t := r])
    ensures forall c :: HasRunner(threads[t := r], c) <==> HasRunner(threads, c)
  {
    forall c ensures HasRunner(threads[t := r], c) <==> HasRunner(threads, c) {
      if HasRunner(threads, c) {
        var u :| u in threads && threads[u].current.scope == c;
        assert threads[t := r][u].current.scope == c;
      }
    }
  }

  lemma OneMoreScope(threads: map<nat, Runner>, t: nat, r: Runner)
    requires t !in threads && DistinctScopes(threads) && !HasRunner(threads, r.current.scope)
    ensures DistinctScopes(threads[t := r])
    ensures forall c :: HasRunner(threads[t := r], c) <==> HasRunner(threads, c) || c == r.current.scope
  {
    forall c ensures HasRunner(threads[t := r], c) <==> HasRunner(threads, c) || c == r.current.scope {
      assert threads[t := r][t] == r;
      if HasRunner(threads, c) {
        var u :| u in threads && threads[u].current.scope == c;
        assert threads[t := r][u].current.scope == c;
      }
    }
  }

  lemma OneScopeLess(threads: map<nat, Runner>, t: nat)
    requires t in threads && DistinctScopes(threads)
    ensures DistinctScopes(threads - {t})
    ensures forall c :: HasRunner(threads - {t}, c) <==> HasRunner(threads, c) && c != threads[t].current.scope
  {
    forall c ensures HasRunner(threads - {t}, c) <==> HasRunner(threads, c) && c != threads[t].current.scope {
      if HasRunner(threads, c) && c != threads[t].current.scope {
        var u :| u in threads && threads[u].current.scope == c;
        assert u in threads - {t};
      }
    }
  }

  lemma StepKeepsOneRunner(s: State, step: Step)
    requires OneRunner(s) && Enabled(s, step)
    ensures OneRunner(Next(s, step))
  {
    hide HasRunner, DistinctScopes;
    match step
    case Submit(t, input) =>
      if input.scope !in s.runs {
        OneMoreScope(s.threads, t, Runner(input, Ready));
      }
    case Invoke(t) => SameScopes(s.threads, t, s.threads[t].(phase := Invoking));
    case Return(t) => SameScopes(s.threads, t, s.threads[t].(phase := Back));
    case Complete(t) =>
      var scope := s.threads[t].current.scope;
      RunnerHasEntry(s, t);
      if s.runs[scope].Waiting? {
        SameScopes(s.threads, t, Runner(s.runs[scope].input, Ready));
      } else {
        OneScopeLess(s.threads, t);
      }
  }

  // ----- no submission is lost

  /** The submission at position k is covered by an invocation that began after it. */
  ghost predicate Settled(log: seq<Event>, k: nat)
    requires k < |log| && log[k].Submitted?
  {
    exists m :: k < m < |log| && log[m].Invoked? && Covers(log[m].input, log[k].input)
  }

  /** The submission is covered by what its scope has waiting. */
  predicate InPending(runs: Runs, input: Input) {
    input.scope in runs && runs[input.scope].Waiting? && Covers(runs[input.scope].input, input)
  }

  /** The submission is covered by what a runner is about to invoke. */
  ghost predicate InRunner(threads: map<nat, Runner>, input: Input) {
    exists t :: t in threads && threads[t].phase == Ready && Covers(threads[t].current, input)
  }

  ghost predicate Looked(s: State, k: nat)
    requires k < |s.log| && s.log[k].Submitted?
  {
    Settled(s.log, k) || InPending(s.runs, s.log[k].input) || InRunner(s.threads, s.log[k].input)
  }

  ghost predicate NothingLost(s: State) {
    forall k | 0 <= k < |s.log| && s.log[k].Submitted? :: Looked(s, k)
  }

  lemma SettledStays(log: seq<Event>, e: Event, k: nat)
    requires k < |log| && log[k].Submitted? && Settled(log, k)
    ensures Settled(log + [e], k)
  {
    var m :| k < m < |log| && log[m].Invoked? && Covers(log[m].input, log[k].input);
    assert (log + [e])[m] == log[m];
  }

  lemma CoversSelf(input: Input)
    ensures Covers(input, input)
  {
  }

  lemma SubmitKeepsOthers(s: State, t: nat, input: Input, k: nat)
    requires OneRunner(s) && NothingLost(s) && t !in s.threads && k < |s.log| && s.log[k].Submitted?
    ensures Looked(Next(s, Submit(t, input)), k)
  {
    hide Covers, Merge;
    var after := Next(s, Submit(t, input));
    var old' := s.log[k].input;
    assert Looked(s, k) && after.log[k] == s.log[k];
    if Settled(s.log, k) {
      SettledStays(s.log, Submitted(input), k);
    } else if InPending(s.runs, old') {
      if input.scope == old'.scope {
        var waiting := s.runs[input.scope].input;
        MergeCovers(waiting, input);
        CoversTransitive(Merge(waiting, input), waiting, old');
      }
    } else {
      var u :| u in s.threads && s.threads[u].phase == Ready && Covers(s.threads[u].current, old');
      assert u in after.threads && after.threads[u] == s.threads[u];
    }
  }

  lemma SubmittedIsLooked(s: State, t: nat, input: Input)
    requires t !in s.threads
    requires forall c | c in s.runs && s.runs[c].Waiting? :: s.runs[c].input.scope == c
    ensures Looked(Next(s, Submit(t, input)), |s.log|)
  {
    hide Covers, Merge;
    var after := Next(s, Submit(t, input));
    CoversSelf(input);
    if input.scope !in s.runs {
      assert after.threads[t] == Runner(input, Ready);
    } else if s.runs[input.scope].Waiting? {
      MergeCovers(s.runs[input.scope].input, input);
    }
  }

  lemma InvokeKeeps(s: State, t: nat, k: nat)
    requires NothingLost(s) && Enabled(s, Invoke(t)) && k < |s.log| && s.log[k].Submitted?
    ensures Looked(Next(s, Invoke(t)), k)
  {
    hide Covers;
    var after := Next(s, Invoke(t));
    var e := Invoked(s.threads[t].current);
    assert Looked(s, k) && after.log == s.log + [e];
    if Settled(s.log, k) {
      SettledStays(s.log, e, k);
    } else if InPending(s.runs, s.log[k].input) {
    } else {
      var u :| u in s.threads && s.threads[u].phase == Ready && Covers(s.threads[u].current, s.log[k].input);
      if u == t {
        assert after.log[|s.log|] == e;
        assert Settled(after.log, k);
      } else {
        assert after.threads[u] == s.threads[u];
      }
    }
  }

  lemma QuietStepKeeps(s: State, step: Step, k: nat)
    requires OneRunner(s) && NothingLost(s) && Enabled(s, step) && (step.Return? || step.Complete?)
    requires k < |s.log| && s.log[k].Submitted?
    ensures Looked(Next(s, step), k)
  {
    hide Covers;
    var after := Next(s, step);
    var old' := s.log[k].input;
    assert Looked(s, k) && after.log == s.log;
    var t := step.thread;
    if Settled(s.log, k) {
    } else if InPending(s.runs, old') {
      if step.Complete? && s.threads[t].current.scope == old'.scope {
        assert after.threads[t] == Runner(s.runs[old'.scope].input, Ready);
      }
    } else {
      var u :| u in s.threads && s.threads[u].phase == Ready && Covers(s.threads[u].current, old');
      assert u != t && after.threads[u] == s.threads[u];
    }
  }

  lemma StepKeepsNothingLost(s: State, step: Step)
    requires OneRunner(s) && NothingLost(s) && Enabled(s, step)
    ensures NothingLost(Next(s, step))
  {
    hide Looked, HasRunner, DistinctScopes;
    var after := Next(s, step);
    forall k | 0 <= k < |after.log| && after.log[k].Submitted? ensures Looked(after, k) {
      match step
      case Submit(t, input) =>
        if k == |s.log| {
          SubmittedIsLooked(s, t, input);
        } else {
          assert after.log[k] == s.log[k];
          SubmitKeepsOthers(s, t, input, k);
        }
      case Invoke(t) =>
        assert k < |s.log| && after.log[k] == s.log[k];
        InvokeKeeps(s, t, k);
      case Return(t) => QuietStepKeeps(s, step, k);
      case Complete(t) => QuietStepKeeps(s, step, k);
    }
  }

  // ----- no more invocations than submissions

  function Submissions(log: seq<Event>): nat {
    if log == [] then 0 else Submissions(log[..|log| - 1]) + if log[|log| - 1].Submitted? then 1 else 0
  }

  function Invocations(log: seq<Event>): nat {
    if log == [] then 0 else Invocations(log[..|log| - 1]) + if log[|log| - 1].Invoked? then 1 else 0
  }

  function ReadyThreads(threads: map<nat, Runner>): set<nat> {
    set t | t in threads && threads[t].phase == Ready
  }

  function WaitingScopes(runs: Runs): set<Scope> {
    set c | c in runs && runs[c].Waiting?
  }

  /** Every submission pays for at most one invocation: made, about to be made, or waiting. */
  predicate Paid(s: State) {
    Invocations(s.log) + |ReadyThreads(s.threads)| + |WaitingScopes(s.runs)| <= Submissions(s.log)
  }

  lemma CountSnoc(log: seq<Event>, e: Event)
    ensures Submissions(log + [e]) == Submissions(log) + if e.Submitted? then 1 else 0
    ensures Invocations(log + [e]) == Invocations(log) + if e.Invoked? then 1 else 0
  {
    assert (log + [e])[..|log|] == log;
  }

  lemma ReadyPut(threads: map<nat, Runner>, t: nat, r: Runner)
    ensures |ReadyThreads(threads[t := r])|
         == |ReadyThreads(threads)| - (if t in ReadyThreads(threads) then 1 else 0) + (if r.phase == Ready then 1 else 0)
  {
    ReadyAfterPut(threads, t, r);
    hide ReadyThreads;
  }

  lemma ReadyAfterPut(threads: map<nat, Runner>, t: nat, r: Runner)
    ensures ReadyThreads(threads[t := r]) == (ReadyThreads(threads) - {t}) + if r.phase == Ready then {t} else {}
  {
  }

  lemma ReadyDrop(threads: map<nat, Runner>, t: nat)
    requires t !in ReadyThreads(threads)
    ensures ReadyThreads(threads - {t}) == ReadyThreads(threads)
  {
  }

  lemma WaitingPut(runs: Runs, c: Scope, p: Pending)
    ensures |WaitingScopes(runs[c := p])|
         == |WaitingScopes(runs)| - (if c in WaitingScopes(runs) then 1 else 0) + (if p.Waiting? then 1 else 0)
  {
    var rest := WaitingScopes(runs) - {c};
    assert WaitingScopes(runs[c := p]) == if p.Waiting? then rest + {c} else rest;
  }

  lemma WaitingDrop(runs: Runs, c: Scope)
    requires c !in WaitingScopes(runs)
    ensures WaitingScopes(runs - {c}) == WaitingScopes(runs)
  {
  }

  lemma StepKeepsPaid(s: State, step: Step)
    requires OneRunner(s) && Paid(s) && Enabled(s, step)
    ensures Paid(Next(s, step))
  {
    hide Submissions, Invocations, Merge, HasRunner, DistinctScopes;
    var after := Next(s, step);
    match step
    case Submit(t, input) =>
      CountSnoc(s.log, Submitted(input));
      ReadyPut(s.threads, t, Runner(input, Ready));
      WaitingPut(s.runs, input.scope, after.runs[input.scope]);
    case Invoke(t) =>
      CountSnoc(s.log, Invoked(s.threads[t].current));
      ReadyPut(s.threads, t, after.threads[t]);
    case Return(t) =>
      ReadyPut(s.threads, t, after.threads[t]);
    case Complete(t) =>
      var scope := s.threads[t].current.scope;
      RunnerHasEntry(s, t);
      if s.runs[scope].Waiting? {
        ReadyPut(s.threads, t, after.threads[t]);
        WaitingPut(s.runs, scope, Nothing);
      } else {
        ReadyDrop(s.threads, t);
        WaitingDrop(s.runs, scope);
      }
  }

  // ----- runs

  lemma {:induction false} RunKeeps(steps: seq<Step>)
    requires RunEnabled(steps)
    ensures OneRunner(Run(steps)) && NothingLost(Run(steps)) && Paid(Run(steps))
    decreases |steps|
  {
    hide OneRunner, NothingLost, Paid, Next, Enabled;
    if steps == [] {
      StartIsFine();
    } else {
      var before := Run(steps[..|steps| - 1]);
      RunKeeps(steps[..|steps| - 1]);
      StepKeepsOneRunner(before, steps[|steps| - 1]);
      StepKeepsNothingLost(before, steps[|steps| - 1]);
      StepKeepsPaid(before, steps[|steps| - 1]);
    }
  }

  lemma StartIsFine()
    ensures var s := State(map[], map[], []);
            OneRunner(s) && NothingLost(s) && Paid(s)
  {
    assert ReadyThreads(map[]) == {} && WaitingScopes(map[]) == {};
  }

  /** In every interleaving: at any moment the scopes with an entry are those with a runner, one each, and there were no
      more invocations than submissions; and once no runner is left, every submission was covered by an invocation that
      began after it. */
  lemma NoTriggerIsLost(steps: seq<Step>)
    requires RunEnabled(steps)
    ensures OneRunner(Run(steps)) && Invocations(Run(steps).log) <= Submissions(Run(steps).log)
    ensures var s := Run(steps);
            s.threads == map[] ==>
              s.runs == map[] && forall k | 0 <= k < |s.log| && s.log[k].Submitted? :: Settled(s.log, k)
  {
    hide Run, RunEnabled, OneRunner, NothingLost, Paid, Invocations, Submissions, Settled;
    RunKeeps(steps);
    PaidMeans(Run(steps));
    if Run(steps).threads == map[] {
      NobodyLeft(Run(steps));
    }
  }

  lemma PaidMeans(s: State)
    requires Paid(s)
    ensures Invocations(s.log) <= Submissions(s.log)
  {
    hide Invocations, Submissions, ReadyThreads, WaitingScopes;
  }

  lemma NobodyLeft(s: State)
    requires OneRunner(s) && NothingLost(s) && s.threads == map[]
    ensures s.runs == map[] && forall k | 0 <= k < |s.log| && s.log[k].Submitted? :: Settled(s.log, k)
  {
    hide Settled;
    forall c ensures c !in s.runs {
      assert !HasRunner(s.threads, c);
    }
    forall k | 0 <= k < |s.log| && s.log[k].Submitted? ensures Settled(s.log, k) {
      assert Looked(s, k);
    }
  }
}
