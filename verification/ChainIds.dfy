/** Adding correlation chains one by one to an output that keeps a chain only if its ID is new (addCorrelationChain).

    What is left are the chains that are the first with their ID, in their order. */
module ChainIds {
  /** The chains that are left when each is added in turn. */
  function Deduped<T, Id(==)>(id: T -> Id, chains: seq<T>): seq<T> {
    if chains == [] then []
    else
      var before, last := chains[..|chains| - 1], chains[|chains| - 1];
      Deduped(id, before) + if id(last) in Ids(id, before) then [] else [last]
  }

  function Ids<T, Id(==)>(id: T -> Id, chains: seq<T>): set<Id> {
    set i | 0 <= i < |chains| :: id(chains[i])
  }

  predicate DistinctIds<T, Id(==)>(id: T -> Id, chains: seq<T>) {
    forall i, j | 0 <= i < j < |chains| :: id(chains[i]) != id(chains[j])
  }

  predicate FirstWithItsId<T, Id(==)>(id: T -> Id, chains: seq<T>, k: nat)
    requires k < |chains|
  {
    forall j | 0 <= j < k :: id(chains[j]) != id(chains[k])
  }

  /** indices lists, in order, exactly the positions whose chain is the first with its ID. */
  ghost predicate FirstPositions<T, Id>(id: T -> Id, chains: seq<T>, indices: seq<nat>) {
    && (forall a | 0 <= a < |indices| :: indices[a] < |chains| && FirstWithItsId(id, chains, indices[a]))
    && (forall a, b | 0 <= a < b < |indices| :: indices[a] < indices[b])
    && (forall k | 0 <= k < |chains| && FirstWithItsId(id, chains, k) :: k in indices)
  }

  ghost predicate At<T>(chains: seq<T>, indices: seq<nat>, left: seq<T>) {
    && |left| == |indices|
    && forall a | 0 <= a < |indices| :: indices[a] < |chains| && left[a] == chains[indices[a]]
  }

  /** What is left is, in order, the first chain of every ID. */
  lemma {:induction false} DedupedKeepsFirsts<T, Id>(id: T -> Id, chains: seq<T>) returns (indices: seq<nat>)
    ensures FirstPositions(id, chains, indices) && At(chains, indices, Deduped(id, chains))
  {
    if chains == [] {
      indices := [];
    } else {
      var n := |chains| - 1;
      var before, chain := chains[..n], chains[n];
      assert chains == before + [chain];
      var inner := DedupedKeepsFirsts(id, before);
      DedupedSnoc(id, before, chain);
      FirstsSnoc(id, before, chain, inner);
      AtSnoc(before, chain, inner, Deduped(id, before));
      hide Deduped, Ids, FirstPositions, At;
      indices := if id(chain) in Ids(id, before) then inner else inner + [n];
    }
  }

  lemma AtSnoc<T>(before: seq<T>, chain: T, inner: seq<nat>, left: seq<T>)
    requires At(before, inner, left)
    ensures At(before + [chain], inner, left) && At(before + [chain], inner + [|before|], left + [chain])
  {
  }

  lemma FirstsSnoc<T, Id>(id: T -> Id, before: seq<T>, chain: T, inner: seq<nat>)
    requires FirstPositions(id, before, inner)
    ensures FirstPositions(id, before + [chain], if id(chain) in Ids(id, before) then inner else inner + [|before|])
  {
    hide FirstWithItsId;
    var n, chains := |before|, before + [chain];
    FirstStays(id, before, chain);
    var indices := if id(chain) in Ids(id, before) then inner else inner + [n];
    assert forall a | 0 <= a < |indices| :: indices[a] < n ==> indices[a] == inner[a];
    forall k | 0 <= k < |chains| && FirstWithItsId(id, chains, k) ensures k in indices {
      if k < n {
        assert k in inner;
      } else {
        assert indices[|inner|] == n;
      }
    }
  }

  lemma FirstStays<T, Id>(id: T -> Id, before: seq<T>, chain: T)
    ensures forall k | 0 <= k < |before| :: FirstWithItsId(id, before + [chain], k) == FirstWithItsId(id, before, k)
    ensures FirstWithItsId(id, before + [chain], |before|) == (id(chain) !in Ids(id, before))
  {
    var chains := before + [chain];
    forall k | 0 <= k < |before| ensures FirstWithItsId(id, chains, k) == FirstWithItsId(id, before, k) {
      assert forall j | 0 <= j <= k :: chains[j] == before[j];
    }
    assert forall j | 0 <= j < |before| :: chains[j] == before[j] && id(before[j]) in Ids(id, before);
    assert chains[|before|] == chain;
  }

  /** No two chains that are left share an ID, and no ID is lost. */
  lemma {:induction false} DedupedIds<T, Id>(id: T -> Id, chains: seq<T>)
    ensures DistinctIds(id, Deduped(id, chains)) && Ids(id, Deduped(id, chains)) == Ids(id, chains)
  {
    if chains != [] {
      var n := |chains| - 1;
      var before, chain := chains[..n], chains[n];
      var left := Deduped(id, before);
      assert chains == before + [chain];
      DedupedIds(id, before);
      DedupedSnoc(id, before, chain);
      hide Deduped, Ids, DistinctIds;
      IdsSnoc(id, before, chain);
      IdsSnoc(id, left, chain);
      if id(chain) !in Ids(id, left) {
        DistinctSnoc(id, left, chain);
      }
    }
  }

  lemma DistinctSnoc<T, Id>(id: T -> Id, left: seq<T>, chain: T)
    requires DistinctIds(id, left) && id(chain) !in Ids(id, left)
    ensures DistinctIds(id, left + [chain])
  {
    assert forall k | 0 <= k < |left| :: id(left[k]) in Ids(id, left);
  }

  lemma IdsSnoc<T, Id>(id: T -> Id, chains: seq<T>, chain: T)
    ensures Ids(id, chains + [chain]) == Ids(id, chains) + {id(chain)}
  {
    var all := chains + [chain];
    assert forall i | 0 <= i < |chains| :: all[i] == chains[i];
    assert all[|chains|] == chain;
  }

  lemma DedupedSnoc<T, Id>(id: T -> Id, chains: seq<T>, chain: T)
    ensures Deduped(id, chains + [chain])
         == if id(chain) in Ids(id, chains) then Deduped(id, chains) else Deduped(id, chains) + [chain]
  {
    assert (chains + [chain])[..|chains|] == chains;
  }

  method AddCorrelationChain<T, Id(==)>(id: T -> Id, chains: seq<T>, seen: set<Id>, chain: T)
    returns (chains': seq<T>, seen': set<Id>)
    ensures seen' == seen + {id(chain)} && chains' == if id(chain) in seen then chains else chains + [chain]
  {
    chains', seen' := chains, seen;
    if id(chain) in seen {
      return;
    }
    seen' := seen + {id(chain)};
    chains' := chains + [chain];
  }

  /** The loop over the chains of one pass. */
  method AddCorrelationChains<T, Id(==)>(id: T -> Id, ghost earlier: seq<T>, chains: seq<T>, seen: set<Id>, added: seq<T>)
    returns (chains': seq<T>, seen': set<Id>)
    requires chains == Deduped(id, earlier) && seen == Ids(id, earlier)
    ensures chains' == Deduped(id, earlier + added) && seen' == Ids(id, earlier + added)
  {
    hide Deduped, Ids;
    chains', seen' := chains, seen;
    assert earlier + added[..0] == earlier;
    for k := 0 to |added|
      invariant chains' == Deduped(id, earlier + added[..k]) && seen' == Ids(id, earlier + added[..k])
    {
      assert earlier + added[..k + 1] == (earlier + added[..k]) + [added[k]];
      DedupedSnoc(id, earlier + added[..k], added[k]);
      IdsSnoc(id, earlier + added[..k], added[k]);
      chains', seen' := AddCorrelationChain(id, chains', seen', added[k]);
    }
    assert added[..|added|] == added;
  }
}
