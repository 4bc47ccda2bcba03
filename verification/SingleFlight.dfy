/** Automatic correlation after ingest: many threads, one runner per scope, late inputs merged into one pending input
    (ingest.go). */
module SingleFlight {
  datatype Since = Zero | At(time: int)

  /** nil, which means every event, or a list of event identifiers. */
  datatype Triggers = All | Ids(ids: seq<string>)

  datatype Scope = Scope(organization: string, project: string, environment: string, app: string)

  datatype Input = Input(scope: Scope, since: Since, window: int, limit: int, saveFindings: bool, triggers: Triggers)

  // ----- merging

  /** The identifiers that are not empty, each once, in order of first appearance. */
  function Distinct(ids: seq<string>): seq<string> {
    if ids == [] then []
    else
      var before := Distinct(ids[..|ids| - 1]);
      var last := ids[|ids| - 1];
      if last == "" || last in before then before else before + [last]
  }

  lemma {:induction false} DistinctElements(ids: seq<string>)
    ensures forall x :: x in Distinct(ids) <==> x in ids && x != ""
    ensures forall i, j | 0 <= i < j < |Distinct(ids)| :: Distinct(ids)[i] != Distinct(ids)[j]
  {
    if ids != [] {
      DistinctElements(ids[..|ids| - 1]);
      assert ids == ids[..|ids| - 1] + [ids[|ids| - 1]];
    }
  }

  function MergeTriggers(current: Triggers, incoming: Triggers): Triggers {
    if current == All || incoming == All then All else Ids(Distinct(current.ids + incoming.ids))
  }

  lemma DistinctSnoc(ids: seq<string>, id: string)
    ensures Distinct(ids + [id])
         == if id == "" || id in Distinct(ids) then Distinct(ids) else Distinct(ids) + [id]
  {
    assert (ids + [id])[..|ids|] == ids;
  }

  /** The inner loop of mergeTriggerEventIDs: one of the two lists. */
  method MergeList(ghost taken: seq<string>, merged: seq<string>, seen: set<string>, eventIds: seq<string>)
    returns (mergedAfter: seq<string>, seenAfter: set<string>)
    requires merged == Distinct(taken) && seen == set x | x in merged
    ensures mergedAfter == Distinct(taken + eventIds) && seenAfter == set x | x in mergedAfter
  {
    hide Distinct;
    mergedAfter, seenAfter := merged, seen;
    assert taken + eventIds[..0] == taken;
    for i := 0 to |eventIds|
      invariant mergedAfter == Distinct(taken + eventIds[..i]) && seenAfter == set x | x in mergedAfter
    {
      var id := eventIds[i];
      DistinctSnoc(taken + eventIds[..i], id);
      assert taken + eventIds[..i + 1] == taken + eventIds[..i] + [id];
      if id != "" && id !in seenAfter {
        seenAfter := seenAfter + {id};
        mergedAfter := mergedAfter + [id];
      }
    }
    assert eventIds[..|eventIds|] == eventIds;
  }

  /** mergeTriggerEventIDs */
  method MergeTriggerEventIDs(current: Triggers, incoming: Triggers) returns (merged: Triggers)
    ensures merged == MergeTriggers(current, incoming)
  {
    if current == All || incoming == All {
      return All;
    }
    var result, seen := MergeList([], [], {}, current.ids);
    assert [] + current.ids == current.ids;
    result, seen := MergeList(current.ids, result, seen, incoming.ids);
    merged := Ids(result);
  }

  /** mergeAutoCorrelationInputs */
  function Merge(current: Input, incoming: Input): Input {
    current.(
      since := if current.since == Zero || (incoming.since != Zero && incoming.since.time < current.since.time)
               then incoming.since else current.since,
      window := if incoming.window > current.window then incoming.window else current.window,
      limit := if incoming.limit > current.limit then incoming.limit else current.limit,
      saveFindings := current.saveFindings || incoming.saveFindings,
      triggers := MergeTriggers(current.triggers, incoming.triggers))
  }

  // ----- covering

  predicate TriggersCover(big: Triggers, small: Triggers) {
    big == All || (small != All && forall id | id in small.ids && id != "" :: id in big.ids)
  }

  /** What an invocation must offer so that a submitted input needs no invocation of its own: it looks at least as far
      back, in a window and up to a limit at least as large, saves if saving was asked for, and keeps the findings of at
      least the same events. */
  predicate Covers(big: Input, small: Input) {
    && big.scope == small.scope
    && (small.since != Zero ==> big.since != Zero && big.since.time <= small.since.time)
    && big.window >= small.window && big.limit >= small.limit
    && (small.saveFindings ==> big.saveFindings)
    && TriggersCover(big.triggers, small.triggers)
  }

  /** A merged input covers both of its parts, and covering composes. */
  lemma MergeCovers(current: Input, incoming: Input)
    requires current.scope == incoming.scope
    ensures Covers(Merge(current, incoming), current) && Covers(Merge(current, incoming), incoming)
  {
    if current.triggers != All && incoming.triggers != All {
      DistinctElements(current.triggers.ids + incoming.triggers.ids);
    }
  }

  lemma CoversTransitive(a: Input, b: Input, c: Input)
    requires Covers(a, b) && Covers(b, c)
    ensures Covers(a, c)
  {
  }

  /** Merging keeps no more than it must: the merged start is one of the two, and so are window and limit; the merged
      events are those of the two. */
  lemma MergeIsLeast(current: Input, incoming: Input, other: Input)
    requires current.scope == incoming.scope
    requires Covers(other, current) && Covers(other, incoming)
    ensures Covers(other, Merge(current, incoming))
  {
    if current.triggers != All && incoming.triggers != All {
      DistinctElements(current.triggers.ids + incoming.triggers.ids);
    }
  }

  // ----- the shared state

  datatype Pending = Nothing | Waiting(input: Input)

  /** correlationRuns: an entry per scope that has a runner. */
  type Runs = map<Scope, Pending>

  function AfterBegin(runs: Runs, input: Input): Runs {
    if input.scope !in runs then runs[input.scope := Nothing]
    else match runs[input.scope]
      case Nothing => runs[input.scope := Waiting(input)]
      case Waiting(pending) => runs[input.scope := Waiting(Merge(pending, input))]
  }

  function AfterComplete(runs: Runs, scope: Scope): Runs {
    if scope !in runs then runs
    else if runs[scope] == Nothing then runs - {scope}
    else runs[scope := Nothing]
  }

  /** The two critical sections, as the mutex serializes them, and the runner's loop around them. */
  class CorrelationRuns {
    var runs: Runs

    constructor ()
      ensures runs == map[]
    {
      runs := map[];
    }

    method Begin(input: Input) returns (started: bool)
      modifies this
      ensures runs == AfterBegin(old(runs), input) && (started <==> input.scope !in old(runs))
    {
      if input.scope in runs {
        var pending := input;
        if runs[input.scope].Waiting? {
          var waiting := runs[input.scope].input;
          var triggers := MergeTriggerEventIDs(waiting.triggers, input.triggers);
          pending := Merge(waiting, input);
          assert pending.triggers == triggers;
        }
        runs := runs[input.scope := Waiting(pending)];
        return false;
      }
      runs := runs[input.scope := Nothing];
      started := true;
    }

    method Complete(scope: Scope) returns (next: Pending)
      modifies this
      ensures runs == AfterComplete(old(runs), scope)
      ensures next == if scope in old(runs) then old(runs)[scope] else Nothing
    {
      if scope !in runs {
        return Nothing;
      }
      next := runs[scope];
      if next == Nothing {
        runs := runs - {scope};
      } else {
        runs := runs[scope := Nothing];
      }
    }

    /** Other threads submit the inputs of one scope while its runner is busy. */
    method Arrive(scope: Scope, inputs: seq<Input>)
      requires scope in runs && runs[scope] == Nothing
      requires forall i | 0 <= i < |inputs| :: inputs[i].scope == scope
      modifies this
      ensures runs.Keys == old(runs.Keys) && (forall s | s in runs && s != scope :: runs[s] == old(runs)[s])
      ensures runs[scope] == Nothing <==> inputs == []
      ensures forall i | 0 <= i < |inputs| :: runs[scope].Waiting? && Covers(runs[scope].input, inputs[i])
      ensures runs[scope].Waiting? ==> runs[scope].input.scope == scope
    {
      for i := 0 to |inputs|
        invariant runs.Keys == old(runs.Keys) && (forall s | s in runs && s != scope :: runs[s] == old(runs)[s])
        invariant runs[scope] == Nothing <==> i == 0
        invariant forall k | 0 <= k < i :: runs[scope].Waiting? && Covers(runs[scope].input, inputs[k])
        invariant runs[scope].Waiting? ==> runs[scope].input.scope == scope
      {
        ghost var before := runs[scope];
        var started := Begin(inputs[i]);
        if before.Waiting? {
          MergeCovers(before.input, inputs[i]);
        }
      }
    }

    /** runAutoCorrelationSingleFlight of a thread that becomes the runner. arrivals[n] are the inputs other threads
        submit during its n-th invocation and fails(n) says whether that invocation fails. Every input that arrives
        during an invocation is covered by the next one; the loop ends at the first invocation nothing arrived in; only
        the error of the last invocation is returned. */
    method RunSingleFlight(input: Input, arrivals: seq<seq<Input>>, fails: nat -> bool)
      returns (invoked: seq<Input>, failed: bool)
      requires input.scope !in runs
      requires forall n, i | 0 <= n < |arrivals| && 0 <= i < |arrivals[n]| :: arrivals[n][i].scope == input.scope
      modifies this
      ensures runs == old(runs)
      ensures 1 <= |invoked| <= |arrivals| + 1 && invoked[0] == input
      ensures forall n | 0 <= n < |invoked| - 1 ::
                arrivals[n] != [] && forall i | 0 <= i < |arrivals[n]| :: Covers(invoked[n + 1], arrivals[n][i])
      ensures |invoked| <= |arrivals| ==> arrivals[|invoked| - 1] == []
      ensures failed == fails(|invoked| - 1)
    {
      var scope := input.scope;
      var started := Begin(input);
      var current := input;
      invoked := [];
      while true
        invariant scope in runs && runs[scope] == Nothing && runs - {scope} == old(runs)
        invariant |invoked| <= |arrivals| && (|invoked| == 0 ==> current == input) && (|invoked| > 0 ==> invoked[0] == input)
        invariant forall n | 0 <= n < |invoked| - 1 ::
                    arrivals[n] != [] && forall i | 0 <= i < |arrivals[n]| :: Covers(invoked[n + 1], arrivals[n][i])
        invariant |invoked| > 0 ==>
                    var n := |invoked| - 1;
                    arrivals[n] != [] && forall i | 0 <= i < |arrivals[n]| :: Covers(current, arrivals[n][i])
        decreases |arrivals| - |invoked|
      {
        ghost var others := runs - {scope};
        var now := if |invoked| < |arrivals| then arrivals[|invoked|] else [];
        Arrive(scope, now);
        assert runs - {scope} == others;
        failed := fails(|invoked|);
        invoked := invoked + [current];
        var next := Complete(scope);
        assert runs - {scope} == others;
        if next == Nothing {
          assert runs == others;
          return;
        }
        current := next.input;
      }
    }
  }
}
