/** The inventory: sources own disjoint sets of fields, a refresh merges what
    they collected, and a version counts the refreshes that changed something. */
module Inventory {
  import opened Common

  datatype FieldValue = Flag(flag: bool) | Signed(signed: int) | Unsigned(unsigned: nat) | Text(text: string)

  type Fields = map<string, FieldValue>

  datatype Health = OK | Degraded | Failed

  datatype SourceState = SourceState(
    name: string, required: bool, stale: bool, health: Health,
    lastAttemptTs: int, lastSuccessTs: int, lastError: Option<string>)

  datatype SourceInfo = SourceInfo(name: string, required: bool, owned: seq<string>)

  /** What a source answers during one refresh. */
  datatype Outcome = Outcome(reported: SourceState, collected: Option<Fields>, error: string, finishedTs: int)

  datatype Snapshot = Snapshot(version: nat, timestamp: int, ready: bool, phase: string, fields: Fields)

  datatype Inventory = Inventory(
    sources: seq<SourceInfo>, owners: map<string, string>, snapshot: Snapshot, states: map<string, SourceState>)

  const NO_INVENTORY: Inventory := Inventory([], map[], Snapshot(0, 0, false, "", map[]), map[])

  predicate IsMetadata(field: string) {
    field == "version" || field == "timestamp" || field == "ready" || field == "phase"
  }

  // ---------------------------------------------------------------------
  // Registration
  // ---------------------------------------------------------------------

  predicate CanRegister(inv: Inventory, src: SourceInfo) {
    && src.name != ""
    && (forall k :: 0 <= k < |inv.sources| ==> inv.sources[k].name != src.name)
    && (forall f :: f in src.owned ==> f != "" && !IsMetadata(f) && f !in inv.owners)
  }

  function Owning(owned: seq<string>, name: string): map<string, string> {
    map f | f in owned :: name
  }

  /** A rejected source leaves no trace. */
  function Registered(inv: Inventory, src: SourceInfo): Inventory {
    if !CanRegister(inv, src) then inv
    else inv.(sources := inv.sources + [src], owners := inv.owners + Owning(src.owned, src.name))
  }

  // ---------------------------------------------------------------------
  // Merging
  // ---------------------------------------------------------------------

  datatype Result = Result(name: string, owned: set<string>, ok: bool, fields: Fields)

  function OwnedSet(src: SourceInfo): set<string> {
    set f | f in src.owned
  }

  predicate Succeeds(o: Outcome) {
    o.collected.Some? && forall f :: f in o.collected.value ==> !IsMetadata(f)
  }

  /** Undeclared fields are dropped from what was collected. */
  function ResultOf(src: SourceInfo, o: Outcome): Result {
    Result(src.name, OwnedSet(src), Succeeds(o),
           if Succeeds(o) then (map f | f in o.collected.value && f in src.owned :: o.collected.value[f]) else map[])
  }

  function MergedOne(fields: Fields, r: Result): Fields {
    if r.ok then (fields - r.owned) + r.fields else fields
  }

  function Merged(fields: Fields, rs: seq<Result>): Fields {
    if rs == [] then fields else MergedOne(Merged(fields, rs[..|rs| - 1]), rs[|rs| - 1])
  }

  function Lookup(fields: Fields, f: string): Option<FieldValue> {
    if f in fields then Some(fields[f]) else None
  }

  /** Results of different sources own different fields and stay within them. */
  ghost predicate Partitioned(rs: seq<Result>) {
    && (forall a, b :: a in rs && b in rs && a != b ==> a.owned !! b.owned)
    && (forall a :: a in rs ==> a.fields.Keys <= a.owned)
  }

  /** The owner's answer decides a field: what it collected if it succeeded,
      the previous value otherwise. */
  lemma {:induction false} MergePointwise(fields: Fields, rs: seq<Result>, f: string)
    requires Partitioned(rs)
    ensures forall r :: r in rs && f in r.owned ==>
                          Lookup(Merged(fields, rs), f) == if r.ok then Lookup(r.fields, f) else Lookup(fields, f)
    ensures (forall r :: r in rs ==> f !in r.owned) ==> Lookup(Merged(fields, rs), f) == Lookup(fields, f)
  {
    if rs != [] {
      var front, last := rs[..|rs| - 1], rs[|rs| - 1];
      assert rs == front + [last];
      assert forall r :: r in rs <==> r in front || r == last;
      MergePointwise(fields, front, f);
      forall r | r in rs && f in r.owned
        ensures Lookup(Merged(fields, rs), f) == if r.ok then Lookup(r.fields, f) else Lookup(fields, f)
      {
        if f in last.owned {
          assert r == last;
          if last !in front {
            assert forall x :: x in front ==> f !in x.owned;
          }
        }
      }
    }
  }

  /** The order in which sources are merged does not matter. */
  lemma MergeOrderFree(fields: Fields, rs: seq<Result>, rs': seq<Result>)
    requires Partitioned(rs) && forall r :: r in rs <==> r in rs'
    ensures Merged(fields, rs) == Merged(fields, rs')
  {
    var a, b := Merged(fields, rs), Merged(fields, rs');
    forall f ensures Lookup(a, f) == Lookup(b, f) {
      MergePointwise(fields, rs, f);
      MergePointwise(fields, rs', f);
      if r :| r in rs && f in r.owned {
        assert r in rs';
      }
    }
    forall f ensures f in a <==> f in b {
      assert Lookup(a, f) == Lookup(b, f);
    }
    assert a.Keys == b.Keys;
    forall f | f in a ensures a[f] == b[f] {
      assert Lookup(a, f) == Lookup(b, f);
    }
  }

  // ---------------------------------------------------------------------
  // Refresh
  // ---------------------------------------------------------------------

  /** Sources are only ever appended, so the ones collected from are the
      first `|outcomes|`; later registrations wait for the next refresh. */
  function Results(sources: seq<SourceInfo>, outcomes: seq<Outcome>): seq<Result>
    requires |outcomes| <= |sources|
  {
    seq(|outcomes|, k requires 0 <= k < |outcomes| => ResultOf(sources[k], outcomes[k]))
  }

  /** A source's state right after its answer: `error` is the text of whatever
      failed, the collection itself or the check for reserved fields. */
  function CollectedState(src: SourceInfo, o: Outcome, attemptTs: int): SourceState {
    var base := o.reported.(name := src.name, required := src.required, lastAttemptTs := attemptTs);
    if Succeeds(o) then base.(health := OK, stale := false, lastSuccessTs := o.finishedTs, lastError := None)
    else base.(health := Failed, lastError := Some(o.error))
  }

  /** A failed source keeps the time of its last success, as far as known. */
  function StateOf(src: SourceInfo, o: Outcome, prev: map<string, SourceState>, attemptTs: int): SourceState {
    var state := CollectedState(src, o, attemptTs);
    if !Succeeds(o) && src.name in prev then state.(lastSuccessTs := prev[src.name].lastSuccessTs) else state
  }

  function StatesAfter(sources: seq<SourceInfo>, outcomes: seq<Outcome>, prev: map<string, SourceState>, attemptTs: int): map<string, SourceState>
    requires |outcomes| <= |sources|
  {
    if outcomes == [] then prev
    else
      var k := |outcomes| - 1;
      StatesAfter(sources, outcomes[..k], prev, attemptTs)[sources[k].name := StateOf(sources[k], outcomes[k], prev, attemptTs)]
  }

  predicate RequiredOk(sources: seq<SourceInfo>, states: map<string, SourceState>) {
    forall k :: 0 <= k < |sources| && sources[k].required ==>
                  sources[k].name in states && states[sources[k].name].health.OK?
  }

  function ChangedFields(before: Fields, after: Fields): set<string> {
    set f | f in after && (f !in before || before[f] != after[f])
  }

  function RemovedFields(before: Fields, after: Fields): set<string> {
    before.Keys - after.Keys
  }

  /** The diff is empty exactly when nothing changed. */
  lemma DiffEmptyMeansEqual(before: Fields, after: Fields)
    ensures ChangedFields(before, after) == {} && RemovedFields(before, after) == {} <==> before == after
  {
    if ChangedFields(before, after) == {} && RemovedFields(before, after) == {} {
      forall f | f in after ensures f in before && before[f] == after[f] {
        assert f !in ChangedFields(before, after);
      }
      forall f | f in before ensures f in after {
        assert f !in RemovedFields(before, after);
      }
      assert before.Keys == after.Keys;
    }
  }

  function Refreshed(inv: Inventory, outcomes: seq<Outcome>, attemptTs: int, doneTs: int): Inventory
    requires |outcomes| <= |inv.sources|
  {
    var fields := Merged(inv.snapshot.fields, Results(inv.sources, outcomes));
    var states := StatesAfter(inv.sources, outcomes, inv.states, attemptTs);
    var ready := inv.snapshot.ready || RequiredOk(inv.sources, states);
    var changed := fields != inv.snapshot.fields;
    inv.(states := states,
    snapshot := Snapshot(if changed then inv.snapshot.version + 1 else inv.snapshot.version,
                         if changed then doneTs else inv.snapshot.timestamp,
                         ready, if ready then "live" else "initializing", fields))
  }

  // ---------------------------------------------------------------------
  // Whole runs
  // ---------------------------------------------------------------------

  datatype Op = AddOp(src: SourceInfo) | RefreshOp(outcomes: seq<Outcome>, attemptTs: int, doneTs: int)

  function Step(inv: Inventory, op: Op): Inventory {
    match op
    case AddOp(src) => Registered(inv, src)
    case RefreshOp(outcomes, attemptTs, doneTs) =>
      if |outcomes| <= |inv.sources| then Refreshed(inv, outcomes, attemptTs, doneTs) else inv
  }

  function Run(ops: seq<Op>): Inventory {
    if ops == [] then NO_INVENTORY else Step(Run(ops[..|ops| - 1]), ops[|ops| - 1])
  }

  predicate Owns(inv: Inventory, k: int, f: string) {
    0 <= k < |inv.sources| && f in inv.sources[k].owned
  }

  /** Ownership partitions the metadata-free fields. */
  ghost predicate Ok(inv: Inventory) {
    && (forall j, k :: 0 <= j < k < |inv.sources| ==> inv.sources[j].name != inv.sources[k].name)
    && (forall j, k, f :: Owns(inv, j, f) && Owns(inv, k, f) ==> j == k)
    && (forall k, f :: Owns(inv, k, f) ==> f in inv.owners)
    && (forall f :: f in inv.owners ==> f != "" && !IsMetadata(f) && exists k :: Owns(inv, k, f) && inv.owners[f] == inv.sources[k].name)
    && inv.snapshot.fields.Keys <= inv.owners.Keys
  }

  lemma RegisterKeepsOk(inv: Inventory, src: SourceInfo)
    requires Ok(inv)
    ensures Ok(Registered(inv, src))
  {
    var inv' := Registered(inv, src);
    if CanRegister(inv, src) {
      assert forall k, f :: Owns(inv', k, f) <==> Owns(inv, k, f) || (k == |inv.sources| && f in src.owned);
      forall f | f in inv'.owners ensures f != "" && !IsMetadata(f) && exists k :: Owns(inv', k, f) && inv'.owners[f] == inv'.sources[k].name {
        if f in src.owned {
          assert Owns(inv', |inv.sources|, f);
        } else {
          var k :| Owns(inv, k, f) && inv.owners[f] == inv.sources[k].name;
          assert Owns(inv', k, f) && inv'.owners[f] == inv'.sources[k].name;
        }
      }
    }
  }

  lemma ResultsPartitioned(inv: Inventory, outcomes: seq<Outcome>)
    requires Ok(inv) && |outcomes| <= |inv.sources|
    ensures Partitioned(Results(inv.sources, outcomes))
  {
    var rs := Results(inv.sources, outcomes);
    forall a, b | a in rs && b in rs && a != b ensures a.owned !! b.owned {
      var j :| 0 <= j < |rs| && rs[j] == a;
      var k :| 0 <= k < |rs| && rs[k] == b;
      forall f | f in a.owned && f in b.owned ensures false {
        assert Owns(inv, j, f) && Owns(inv, k, f);
      }
    }
  }

  lemma RefreshKeepsOk(inv: Inventory, outcomes: seq<Outcome>, attemptTs: int, doneTs: int)
    requires Ok(inv) && |outcomes| <= |inv.sources|
    ensures Ok(Refreshed(inv, outcomes, attemptTs, doneTs))
  {
    var inv' := Refreshed(inv, outcomes, attemptTs, doneTs);
    var rs := Results(inv.sources, outcomes);
    ResultsPartitioned(inv, outcomes);
    assert forall k, f :: Owns(inv', k, f) <==> Owns(inv, k, f);
    forall f | f in inv'.snapshot.fields ensures f in inv.owners {
      MergePointwise(inv.snapshot.fields, rs, f);
      if r :| r in rs && f in r.owned {
        var k :| 0 <= k < |rs| && rs[k] == r;
        assert Owns(inv, k, f);
      }
    }
  }

  lemma {:induction false} RunKeepsOk(ops: seq<Op>)
    ensures Ok(Run(ops))
  {
    if ops != [] {
      var inv, last := Run(ops[..|ops| - 1]), ops[|ops| - 1];
      RunKeepsOk(ops[..|ops| - 1]);
      match last
      case AddOp(src) => RegisterKeepsOk(inv, src);
      case RefreshOp(outcomes, attemptTs, doneTs) =>
        if |outcomes| <= |inv.sources| {
          RefreshKeepsOk(inv, outcomes, attemptTs, doneTs);
        }
    }
  }

  // ---------------------------------------------------------------------
  // The last answers
  // ---------------------------------------------------------------------

  /** A collection counts unless it names one of the snapshot's own fields. */
  predicate Answers(o: Outcome) {
    o.collected.Some? && "version" !in o.collected.value && "timestamp" !in o.collected.value
    && "ready" !in o.collected.value && "phase" !in o.collected.value
  }

  lemma AnswersSucceed(o: Outcome)
    ensures Succeeds(o) <==> Answers(o)
  {
  }

  /** Did the last operation of the run ask source `k`? */
  predicate Asks(ops: seq<Op>, k: nat) {
    ops != [] && ops[|ops| - 1].RefreshOp? && k < |ops[|ops| - 1].outcomes| <= |Run(ops[..|ops| - 1]).sources|
  }

  function Answer(ops: seq<Op>, k: nat): Outcome
    requires Asks(ops, k)
  {
    ops[|ops| - 1].outcomes[k]
  }

  /** The value source `k` gave a field when it last answered. */
  function LastGood(ops: seq<Op>, k: nat, f: string): Option<FieldValue> {
    if ops == [] then None
    else if Asks(ops, k) && Answers(Answer(ops, k)) then Lookup(Answer(ops, k).collected.value, f)
    else LastGood(ops[..|ops| - 1], k, f)
  }

  /** After any run, each source's slice of the field map is exactly what it
      last collected successfully, whatever failed in between. */
  lemma {:induction false} SliceIsLastGood(ops: seq<Op>, k: nat, f: string)
    requires Owns(Run(ops), k, f)
    ensures Lookup(Run(ops).snapshot.fields, f) == LastGood(ops, k, f)
  {
    var front, last := ops[..|ops| - 1], ops[|ops| - 1];
    var inv := Run(front);
    RunKeepsOk(front);
    if k < |inv.sources| {
      assert Owns(inv, k, f);
      SliceIsLastGood(front, k, f);
      if last.RefreshOp? && |last.outcomes| <= |inv.sources| {
        RefreshedSlice(inv, last.outcomes, k, f);
      }
    } else {
      assert last.AddOp? && f !in inv.owners;
      NothingLearned(front, k, f);
    }
  }

  lemma RefreshedSlice(inv: Inventory, outcomes: seq<Outcome>, k: nat, f: string)
    requires Ok(inv) && |outcomes| <= |inv.sources| && Owns(inv, k, f)
    ensures Lookup(Merged(inv.snapshot.fields, Results(inv.sources, outcomes)), f) ==
            if k < |outcomes| && Answers(outcomes[k]) then Lookup(outcomes[k].collected.value, f)
            else Lookup(inv.snapshot.fields, f)
  {
    var rs := Results(inv.sources, outcomes);
    ResultsPartitioned(inv, outcomes);
    MergePointwise(inv.snapshot.fields, rs, f);
    if k < |outcomes| {
      AnswersSucceed(outcomes[k]);
      assert rs[k] in rs && f in rs[k].owned;
    } else {
      forall r | r in rs ensures f !in r.owned {
        var j :| 0 <= j < |rs| && rs[j] == r;
        assert f in r.owned ==> Owns(inv, j, f);
      }
    }
  }

  lemma {:induction false} NothingLearned(ops: seq<Op>, k: nat, f: string)
    requires k >= |Run(ops).sources|
    ensures LastGood(ops, k, f) == None
  {
    if ops != [] {
      NothingLearned(ops[..|ops| - 1], k, f);
    }
  }

  predicate Changes(inv: Inventory, op: Op) {
    op.RefreshOp? && Step(inv, op).snapshot.fields != inv.snapshot.fields
  }

  function CountChanges(ops: seq<Op>): nat {
    if ops == [] then 0
    else CountChanges(ops[..|ops| - 1]) + (if Changes(Run(ops[..|ops| - 1]), ops[|ops| - 1]) then 1 else 0)
  }

  /** When the last refresh that changed something was done. */
  function LastChange(ops: seq<Op>): int {
    if ops == [] then 0
    else if Changes(Run(ops[..|ops| - 1]), ops[|ops| - 1]) then ops[|ops| - 1].doneTs
    else LastChange(ops[..|ops| - 1])
  }

  lemma {:induction false} VersionCounts(ops: seq<Op>)
    ensures Run(ops).snapshot.version == CountChanges(ops) && Run(ops).snapshot.timestamp == LastChange(ops)
  {
    if ops != [] {
      VersionCounts(ops[..|ops| - 1]);
    }
  }

  /** The version counts exactly the refreshes that changed the field map, so
      equal versions mean equal fields; and readiness never unlatches. */
  lemma {:induction false} VersionIdentifiesFields(ops: seq<Op>, n: nat)
    requires n <= |ops|
    ensures var early, late := Run(ops[..n]).snapshot, Run(ops).snapshot;
            && late.version == CountChanges(ops)
            && early.version <= late.version
            && (early.version == late.version ==> early.fields == late.fields)
            && (early.ready ==> late.ready)
  {
    VersionCounts(ops);
    if n == |ops| {
      assert ops[..n] == ops;
    } else {
      var front := ops[..|ops| - 1];
      VersionIdentifiesFields(front, n);
      assert front[..n] == ops[..n];
    }
  }

  lemma {:induction false} StatesPointwise(sources: seq<SourceInfo>, outcomes: seq<Outcome>, prev: map<string, SourceState>, attemptTs: int, k: nat)
    requires |outcomes| <= |sources| && k < |sources|
    requires forall i, j :: 0 <= i < j < |sources| ==> sources[i].name != sources[j].name
    ensures var states := StatesAfter(sources, outcomes, prev, attemptTs);
            if k < |outcomes|
            then sources[k].name in states && states[sources[k].name] == StateOf(sources[k], outcomes[k], prev, attemptTs)
            else (sources[k].name in states <==> sources[k].name in prev) &&
                 (sources[k].name in prev ==> states[sources[k].name] == prev[sources[k].name])
  {
    if outcomes != [] {
      StatesPointwise(sources, outcomes[..|outcomes| - 1], prev, attemptTs, k);
    }
  }

  /** Everything a state says of a source, from the answers alone. */
  function LastState(ops: seq<Op>, k: nat): Option<SourceState>
    requires k < |Run(ops).sources|
  {
    if ops == [] then None
    else
      var front := ops[..|ops| - 1];
      if Asks(ops, k) then
        var o, src := Answer(ops, k), Run(ops).sources[k];
        var before := LastState(front, k);
        Some(SourceState(
               src.name, src.required,
               if Answers(o) then false else o.reported.stale,
               if Answers(o) then OK else Failed,
               ops[|ops| - 1].attemptTs,
               if Answers(o) then o.finishedTs
               else if before.Some? then before.value.lastSuccessTs
               else o.reported.lastSuccessTs,
               if Answers(o) then None else Some(o.error)))
      else if k < |Run(front).sources| then LastState(front, k)
      else None
  }

  /** A registered source's state is its last answer: health, error and times
      of the last attempt, and the time of the last success across failures. */
  lemma {:induction false} StateIsLastAnswer(ops: seq<Op>, k: nat)
    requires k < |Run(ops).sources|
    ensures var inv := Run(ops);
            var name := inv.sources[k].name;
            LastState(ops, k) == if name in inv.states then Some(inv.states[name]) else None
  {
    var front, last := ops[..|ops| - 1], ops[|ops| - 1];
    var inv := Run(front);
    RunKeepsOk(ops);
    RunKeepsOk(front);
    if k < |inv.sources| {
      StateIsLastAnswer(front, k);
      if last.RefreshOp? && |last.outcomes| <= |inv.sources| {
        StatesPointwise(inv.sources, last.outcomes, inv.states, last.attemptTs, k);
        if k < |last.outcomes| {
          AnswersSucceed(last.outcomes[k]);
        }
      }
    } else if Run(ops).sources[k].name in inv.states {
      StatesNamed(front, Run(ops).sources[k].name);
    }
  }

  /** Only registered sources have a state. */
  lemma {:induction false} StatesNamed(ops: seq<Op>, name: string)
    requires name in Run(ops).states
    ensures exists j :: 0 <= j < |Run(ops).sources| && Run(ops).sources[j].name == name
  {
    var front, last := ops[..|ops| - 1], ops[|ops| - 1];
    var inv := Run(front);
    if name in inv.states {
      StatesNamed(front, name);
      var j :| 0 <= j < |inv.sources| && inv.sources[j].name == name;
      assert Run(ops).sources[j].name == name;
    } else {
      StatesFrom(inv.sources, last.outcomes, inv.states, last.attemptTs, name);
    }
  }

  lemma {:induction false} StatesFrom(sources: seq<SourceInfo>, outcomes: seq<Outcome>, prev: map<string, SourceState>, attemptTs: int, name: string)
    requires |outcomes| <= |sources| && name in StatesAfter(sources, outcomes, prev, attemptTs) && name !in prev
    ensures exists j :: 0 <= j < |sources| && sources[j].name == name
  {
    var k := |outcomes| - 1;
    if sources[k].name != name {
      StatesFrom(sources, outcomes[..k], prev, attemptTs, name);
    }
  }

  // ---------------------------------------------------------------------
  // Readiness
  // ---------------------------------------------------------------------

  /** Every source registered as required so far answered when last asked. */
  predicate AllRequiredAnswered(ops: seq<Op>) {
    forall k :: 0 <= k < |Run(ops).sources| && Run(ops).sources[k].required ==>
                  LastState(ops, k).Some? && LastState(ops, k).value.health.OK?
  }

  predicate Refreshes(ops: seq<Op>) {
    ops != [] && ops[|ops| - 1].RefreshOp? && |ops[|ops| - 1].outcomes| <= |Run(ops[..|ops| - 1]).sources|
  }

  predicate EverRefreshed(ops: seq<Op>) {
    ops != [] && (Refreshes(ops) || EverRefreshed(ops[..|ops| - 1]))
  }

  /** Some refresh of the run ended with all required sources answering. */
  predicate EverComplete(ops: seq<Op>) {
    ops != [] && ((Refreshes(ops) && AllRequiredAnswered(ops)) || EverComplete(ops[..|ops| - 1]))
  }

  lemma RequiredOkMeans(ops: seq<Op>)
    ensures RequiredOk(Run(ops).sources, Run(ops).states) <==> AllRequiredAnswered(ops)
  {
    forall k | 0 <= k < |Run(ops).sources|
      ensures var src := Run(ops).sources[k];
              src.name in Run(ops).states && Run(ops).states[src.name].health.OK? <==>
              LastState(ops, k).Some? && LastState(ops, k).value.health.OK?
    {
      StateIsLastAnswer(ops, k);
    }
  }

  /** The inventory is ready if and only if some refresh of the run ended with
      every source then registered as required having answered when last asked;
      and the phase says so once there has been a refresh. */
  lemma {:induction false} ReadyMeans(ops: seq<Op>)
    ensures var snapshot := Run(ops).snapshot;
            && (snapshot.ready <==> EverComplete(ops))
            && snapshot.phase == if snapshot.ready then "live" else if EverRefreshed(ops) then "initializing" else ""
  {
    if ops != [] {
      ReadyMeans(ops[..|ops| - 1]);
      if Refreshes(ops) {
        RequiredOkMeans(ops);
      }
    }
  }

  // ---------------------------------------------------------------------
  // Registration and diff, exactly
  // ---------------------------------------------------------------------

  /** The inventory with a source added, no questions asked. */
  function Appended(inv: Inventory, src: SourceInfo): Inventory {
    inv.(sources := inv.sources + [src], owners := inv.owners + (map f | f in src.owned :: src.name))
  }

  /** A named source is registered exactly when adding it keeps names unique
      and ownership a partition of non-reserved fields; otherwise nothing changes. */
  lemma RegisterExact(inv: Inventory, src: SourceInfo)
    requires Ok(inv)
    ensures Registered(inv, src) == if src.name != "" && Ok(Appended(inv, src)) then Appended(inv, src) else inv
  {
    var inv', n := Appended(inv, src), |inv.sources|;
    if CanRegister(inv, src) {
      RegisterKeepsOk(inv, src);
    } else if src.name != "" && Ok(inv') {
      forall k | 0 <= k < n ensures inv.sources[k].name != src.name {
        assert inv'.sources[k].name != inv'.sources[n].name;
      }
      forall f | f in src.owned ensures f != "" && !IsMetadata(f) && f !in inv.owners {
        assert Owns(inv', n, f);
        assert f in inv'.owners;
        if f in inv.owners {
          var k :| Owns(inv, k, f) && inv.owners[f] == inv.sources[k].name;
          assert Owns(inv', k, f);
        }
      }
    }
  }

  /** Ownership never reaches the snapshot's own fields. */
  lemma ReservedUnowned(ops: seq<Op>)
    ensures forall f :: f in Run(ops).owners ==> f !in {"", "version", "timestamp", "ready", "phase"}
  {
    RunKeepsOk(ops);
  }

  /** The diff names a field exactly when its value differs, as removed exactly
      when it is gone. */
  lemma DiffExact(before: Fields, after: Fields, f: string)
    ensures f in ChangedFields(before, after) + RemovedFields(before, after) <==> Lookup(before, f) != Lookup(after, f)
    ensures f in RemovedFields(before, after) <==> f in before && f !in after
  {
  }
}
