/** The inventory manager object: registration and refresh with its loops,
    proved against `Inventory`. */
module InventoryManager {
  import opened Common
  import opened Inventory

  method IsSubsetOfOwnedFields(fields: Fields, owned: seq<string>) returns (r: bool)
    ensures r <==> forall f :: f in fields ==> f in owned
  {
    var todo := fields.Keys;
    while todo != {}
      invariant todo <= fields.Keys
      invariant forall f :: f in fields && f !in todo ==> f in owned
      decreases todo
    {
      var f :| f in todo;
      if f !in owned {
        return false;
      }
      todo := todo - {f};
    }
    return true;
  }

  method GetUndeclaredFields(fields: Fields, owned: seq<string>) returns (undeclared: seq<string>)
    ensures forall f :: f in undeclared <==> f in fields && f !in owned
    ensures forall i, j :: 0 <= i < j < |undeclared| ==> undeclared[i] != undeclared[j]
  {
    undeclared := [];
    var todo := fields.Keys;
    while todo != {}
      invariant todo <= fields.Keys
      invariant forall f :: f in undeclared <==> f in fields && f !in todo && f !in owned
      invariant forall i, j :: 0 <= i < j < |undeclared| ==> undeclared[i] != undeclared[j]
      decreases todo
    {
      var f :| f in todo;
      if f !in owned {
        undeclared := undeclared + [f];
      }
      todo := todo - {f};
    }
  }

  method HasMetadataField(fields: Fields) returns (r: bool)
    ensures r <==> exists f :: f in fields && IsMetadata(f)
  {
    var todo := fields.Keys;
    while todo != {}
      invariant todo <= fields.Keys
      invariant forall f :: f in fields && f !in todo ==> !IsMetadata(f)
      decreases todo
    {
      var f :| f in todo;
      if IsMetadata(f) {
        return true;
      }
      todo := todo - {f};
    }
    return false;
  }

  /** Evaluate one source's answer; a reserved field fails the source, an
      undeclared one is dropped. */
  method CollectSource(src: SourceInfo, o: Outcome, attemptTs: int) returns (r: Result, state: SourceState)
    ensures r == ResultOf(src, o)
    ensures state == CollectedState(src, o, attemptTs)
    ensures r.ok <==> state.health.OK?
  {
    var owned := set f | f in src.owned;
    state := o.reported.(name := src.name, required := src.required, lastAttemptTs := attemptTs);
    r := Result(src.name, owned, false, map[]);
    if o.collected.None? {
      state := state.(health := Failed, lastError := Some(o.error));
      return;
    }
    var raw := o.collected.value;
    var reserved := HasMetadataField(raw);
    if reserved {
      state := state.(health := Failed, lastError := Some(o.error));
      return;
    }
    var subset := IsSubsetOfOwnedFields(raw, src.owned);
    if !subset {
      var undeclared := GetUndeclaredFields(raw, src.owned);
      raw := raw - (set f | f in undeclared);
    }
    assert raw == ResultOf(src, o).fields;
    r := Result(src.name, owned, true, raw);
    state := state.(health := OK, stale := false, lastSuccessTs := o.finishedTs, lastError := None);
  }

  method DiffSourceOwnedFields(before: Fields, after: Fields) returns (changed: seq<string>, removed: seq<string>)
    ensures forall f :: f in changed <==> f in ChangedFields(before, after)
    ensures forall f :: f in removed <==> f in RemovedFields(before, after)
    ensures forall i, j :: 0 <= i < j < |changed| ==> changed[i] != changed[j]
    ensures forall i, j :: 0 <= i < j < |removed| ==> removed[i] != removed[j]
    ensures changed == [] && removed == [] <==> before == after
  {
    changed, removed := [], [];
    var todo := after.Keys;
    while todo != {}
      invariant todo <= after.Keys
      invariant forall f :: f in changed <==> f in ChangedFields(before, after) && f !in todo
      invariant forall i, j :: 0 <= i < j < |changed| ==> changed[i] != changed[j]
      decreases todo
    {
      var f :| f in todo;
      if f !in before || before[f] != after[f] {
        changed := changed + [f];
      }
      todo := todo - {f};
    }
    todo := before.Keys;
    while todo != {}
      invariant todo <= before.Keys
      invariant forall f :: f in removed <==> f in RemovedFields(before, after) && f !in todo
      invariant forall i, j :: 0 <= i < j < |removed| ==> removed[i] != removed[j]
      decreases todo
    {
      var f :| f in todo;
      if f !in after {
        removed := removed + [f];
      }
      todo := todo - {f};
    }
    DiffEmptyMeansEqual(before, after);
    assert changed == [] <==> ChangedFields(before, after) == {} by {
      if changed != [] {
        assert changed[0] in ChangedFields(before, after);
      }
    }
    assert removed == [] <==> RemovedFields(before, after) == {} by {
      if removed != [] {
        assert removed[0] in RemovedFields(before, after);
      }
    }
  }

  lemma MergedNext(fields: Fields, rs: seq<Result>, k: nat)
    requires k < |rs|
    ensures Merged(fields, rs[..k + 1]) == MergedOne(Merged(fields, rs[..k]), rs[k])
  {
    assert rs[..k + 1][..k] == rs[..k];
  }

  lemma StatesNext(sources: seq<SourceInfo>, outcomes: seq<Outcome>, prev: map<string, SourceState>, attemptTs: int, k: nat)
    requires k < |outcomes| <= |sources|
    ensures StatesAfter(sources, outcomes[..k + 1], prev, attemptTs) ==
            StatesAfter(sources, outcomes[..k], prev, attemptTs)[sources[k].name := StateOf(sources[k], outcomes[k], prev, attemptTs)]
  {
    assert outcomes[..k + 1][..k] == outcomes[..k];
  }

  datatype Fault = EmptyName | DuplicateName | EmptyField | ReservedField(field: string) | Collision(field: string, owner: string)

  datatype Registration = Accepted | Rejected(fault: Fault)

  /** What is wrong with owning one field, if anything. */
  predicate Faulty(owners: map<string, string>, f: string, fault: Fault) {
    match fault
    case EmptyField => f == ""
    case ReservedField(g) => f == g && f in {"version", "timestamp", "ready", "phase"}
    case Collision(g, owner) => f == g && f in owners && owners[f] == owner
    case _ => false
  }

  class DefaultInventoryManager {
    var sources: seq<SourceInfo>
    var owners: map<string, string>
    var snapshot: Snapshot
    var states: map<string, SourceState>

    ghost function State(): Inventory
      reads this
    {
      Inventory(sources, owners, snapshot, states)
    }

    constructor ()
      ensures State() == NO_INVENTORY
    {
      sources, owners, states := [], map[], map[];
      snapshot := Snapshot(0, 0, false, "", map[]);
    }

    /** The first fault in the order of the checks: the name, then the fields
        one by one. */
    method ValidateSource(src: SourceInfo) returns (r: Registration)
      ensures r.Accepted? <==> CanRegister(State(), src)
      ensures r == Rejected(EmptyName) <==> src.name == ""
      ensures r == Rejected(DuplicateName) <==> src.name != "" && exists k :: 0 <= k < |sources| && sources[k].name == src.name
      ensures r.Rejected? && !r.fault.EmptyName? && !r.fault.DuplicateName? ==>
                exists k :: 0 <= k < |src.owned| && Faulty(owners, src.owned[k], r.fault) &&
                            forall j :: 0 <= j < k ==> src.owned[j] != "" && !IsMetadata(src.owned[j]) && src.owned[j] !in owners
    {
      if src.name == "" {
        return Rejected(EmptyName);
      }
      for k := 0 to |sources|
        invariant forall j :: 0 <= j < k ==> sources[j].name != src.name
      {
        if sources[k].name == src.name {
          return Rejected(DuplicateName);
        }
      }
      for k := 0 to |src.owned|
        invariant forall j :: 0 <= j < k ==> src.owned[j] != "" && !IsMetadata(src.owned[j]) && src.owned[j] !in owners
      {
        var f := src.owned[k];
        assert f in src.owned;
        if f == "" {
          return Rejected(EmptyField);
        }
        if IsMetadata(f) {
          return Rejected(ReservedField(f));
        }
        if f in owners {
          return Rejected(Collision(f, owners[f]));
        }
      }
      return Accepted;
    }

    method ClaimFields(src: SourceInfo)
      modifies this`owners
      ensures owners == old(owners) + Owning(src.owned, src.name)
    {
      for k := 0 to |src.owned|
        invariant owners == old(owners) + Owning(src.owned[..k], src.name)
      {
        assert src.owned[..k + 1] == src.owned[..k] + [src.owned[k]];
        owners := owners[src.owned[k] := src.name];
      }
      assert src.owned[..|src.owned|] == src.owned;
    }

    method AddSource(src: SourceInfo) returns (r: Registration)
      modifies this
      ensures State() == Registered(old(State()), src)
      ensures r.Accepted? <==> CanRegister(old(State()), src)
    {
      r := ValidateSource(src);
      if r.Accepted? {
        ClaimFields(src);
        sources := sources + [src];
      }
    }

    method AllRequiredSourcesOk(newStates: map<string, SourceState>) returns (r: bool)
      ensures r == RequiredOk(sources, newStates)
    {
      for k := 0 to |sources|
        invariant forall j :: 0 <= j < k && sources[j].required ==>
                                sources[j].name in newStates && newStates[sources[j].name].health.OK?
      {
        if sources[k].name !in newStates {
          if sources[k].required {
            return false;
          }
        } else if sources[k].required && !newStates[sources[k].name].health.OK? {
          return false;
        }
      }
      return true;
    }

    /** The merge loop of a refresh, on the answers of the copied sources. */
    method MergeResults(outcomes: seq<Outcome>, attemptTs: int)
      returns (newFields: Fields, newStates: map<string, SourceState>)
      requires |outcomes| <= |sources|
      ensures newFields == Merged(snapshot.fields, Results(sources, outcomes))
      ensures newStates == StatesAfter(sources, outcomes, states, attemptTs)
    {
      newFields, newStates := snapshot.fields, states;
      ghost var rs := Results(sources, outcomes);
      for k := 0 to |outcomes|
        invariant newFields == Merged(snapshot.fields, rs[..k])
        invariant newStates == StatesAfter(sources, outcomes[..k], states, attemptTs)
      {
        var result, state := CollectSource(sources[k], outcomes[k], attemptTs);
        if result.ok {
          newFields := newFields - result.owned;
          newFields := newFields + result.fields;
        } else if result.name in states {
          state := state.(lastSuccessTs := states[result.name].lastSuccessTs);
        }
        newStates := newStates[result.name := state];
        assert newStates[result.name] == StateOf(sources[k], outcomes[k], states, attemptTs);
        MergedNext(snapshot.fields, rs, k);
        StatesNext(sources, outcomes, states, attemptTs, k);
      }
      assert rs[..|outcomes|] == rs && outcomes[..|outcomes|] == outcomes;
    }

    method RefreshAll(outcomes: seq<Outcome>, attemptTs: int, doneTs: int) returns (changed: seq<string>, removed: seq<string>)
      requires |outcomes| <= |sources|
      modifies this`snapshot, this`states
      ensures State() == Refreshed(old(State()), outcomes, attemptTs, doneTs)
      ensures forall f :: f in changed <==> f in ChangedFields(old(snapshot.fields), snapshot.fields)
      ensures forall f :: f in removed <==> f in RemovedFields(old(snapshot.fields), snapshot.fields)
      ensures forall i, j :: 0 <= i < j < |changed| ==> changed[i] != changed[j]
      ensures forall i, j :: 0 <= i < j < |removed| ==> removed[i] != removed[j]
    {
      var newFields, newStates := MergeResults(outcomes, attemptTs);
      changed, removed := DiffSourceOwnedFields(snapshot.fields, newFields);
      var ready := snapshot.ready;
      if !ready {
        ready := AllRequiredSourcesOk(newStates);
      }
      states := newStates;
      snapshot := snapshot.(ready := ready, phase := if ready then "live" else "initializing", fields := newFields);
      if changed != [] || removed != [] {
        snapshot := snapshot.(version := snapshot.version + 1, timestamp := doneTs);
      }
    }
  }
}
