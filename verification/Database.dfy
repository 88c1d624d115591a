/** The store: the tables the model tasks share, and the transactions on them. */
module Database {
  import opened Basics
  import opened Lifecycle
  import opened PlanCache
  import opened Monitor
  import opened CapabilityMemory

  /** What the first i observations have done to one model. */
  ghost function EffectSoFar(provider: string, observed: seq<ObservedModel>, i: nat, now: Time,
                             current: map<ModelRef, ModelState>, ref: ModelRef): Effect
    requires i <= |observed|
  {
    var row := Get(current, ref);
    var seen := FindObserved(observed[..i], ref.model);
    if ref.provider == provider && seen.Some? then ObservedRow(ref, row, seen.value, now) else Effect(row, [])
  }

  /** Local tables of a transaction stand exactly where `effect` says, model by model. */
  ghost predicate StandsAt(states: map<ModelRef, ModelState>, log: seq<ModelEvent>, effect: ModelRef -> Effect) {
    && (forall ref :: Get(states, ref) == effect(ref).row)
    && (forall ref :: Changes(log, ref) == effect(ref).events)
    && (forall e :: e in log ==> e.changed)
  }

  /** Writing one row and its events moves only that row. */
  lemma {:induction false} OneRowWritten(states: map<ModelRef, ModelState>, log: seq<ModelEvent>, before: ModelRef -> Effect,
                                         ref: ModelRef, row: ModelState, written: seq<ModelEvent>, after: ModelRef -> Effect)
    requires StandsAt(states, log, before) && before(ref).events == []
    requires |written| <= 1 && forall e :: e in written ==> e.changed && e.ref == ref
    requires after(ref) == Effect(Some(row), written)
    requires forall other: ModelRef :: other != ref ==> after(other) == before(other)
    ensures StandsAt(states[ref := row], log + written, after)
  {
    forall other
      ensures Get(states[ref := row], other) == after(other).row
      ensures Changes(log + written, other) == after(other).events
    {
      assert Get(states, other) == before(other).row && Changes(log, other) == before(other).events;
      ChangesAppend(log, written, other);
      OwnChanges(written, ref, other);
    }
  }

  lemma {:induction false} NothingToDeactivate(current: map<ModelRef, ModelState>, ref: ModelRef, now: Time, reason: string)
    requires ref !in current || !Deactivatable(current[ref])
    ensures Deactivated(current, ref, now, reason, current, [])
  {
    assert Committed(Deactivation(ref, now, reason), current, current, []);
    DeactivationLeaves(ref, now, reason, current, current, []);
  }

  lemma {:induction false} OneDeactivated(current: map<ModelRef, ModelState>, ref: ModelRef, now: Time, reason: string)
    requires ref in current && Deactivatable(current[ref])
    ensures var effect := DeactivatedRow(ref, current[ref], now, reason);
            Committed(Deactivation(ref, now, reason), current, current[ref := effect.row.value], effect.events)
  {
    var t, effect := Deactivation(ref, now, reason), DeactivatedRow(ref, current[ref], now, reason);
    OneRowWritten(current, [], other => Effect(Get(current, other), []), ref, effect.row.value, effect.events,
                  other => EffectOn(t, other, Get(current, other)));
    assert [] + effect.events == effect.events;
  }

  /** Deactivating one model of a table, or leaving the table alone, commits. */
  lemma {:induction false} DeactivationCommits(current: map<ModelRef, ModelState>, ref: ModelRef, now: Time, reason: string)
    ensures ref !in current || !Deactivatable(current[ref]) ==> Deactivated(current, ref, now, reason, current, [])
    ensures ref in current && Deactivatable(current[ref]) ==>
              var effect := DeactivatedRow(ref, current[ref], now, reason);
              Deactivated(current, ref, now, reason, current[ref := effect.row.value], [effect.events[0]])
              && effect.events == [effect.events[0]]
  {
    if ref !in current || !Deactivatable(current[ref]) {
      NothingToDeactivate(current, ref, now, reason);
    } else {
      var effect := DeactivatedRow(ref, current[ref], now, reason);
      OneDeactivated(current, ref, now, reason);
      assert effect.events == [effect.events[0]];
      DeactivationLeaves(ref, now, reason, current, current[ref := effect.row.value], [effect.events[0]]);
    }
  }

  ghost predicate Deactivated(before: map<ModelRef, ModelState>, ref: ModelRef, now: Time, reason: string,
                              after: map<ModelRef, ModelState>, written: seq<ModelEvent>)
  {
    && Committed(Deactivation(ref, now, reason), before, after, written)
    && forall other :: DeactivationOutcome(other, other == ref, Get(before, other), now, reason, Get(after, other), written)
  }

  /** At most one event, of one model, in the history of any model. */
  lemma {:induction false} OwnChanges(written: seq<ModelEvent>, ref: ModelRef, other: ModelRef)
    requires |written| <= 1 && forall e :: e in written ==> e.changed && e.ref == ref
    ensures Changes(written, other) == if other == ref then written else []
  {
    if written != [] {
      assert written[0] in written && written == [written[0]] && written[..0] == [];
    }
  }

  /** The alert rows since the cutoff are left, and those of an absence that still lasts; none is changed. */
  ghost predicate AlertsKept(before: map<string, AlertRow>, after: map<string, AlertRow>, states: map<ModelRef, ModelState>,
                             cutoff: Time)
  {
    && (forall key :: key in after <==>
          && key in before
          && var row := before[key];
             row.sentAt >= cutoff || (row.kind == WentInactive && row.ref in states && states[row.ref].status == Inactive
                                      && states[row.ref].missingSince.Some?))
    && (forall key :: key in after ==> after[key] == before[key])
  }

  class Store {
    var states: map<ModelRef, ModelState>
    var snapshots: seq<Snapshot>
    var events: seq<ModelEvent>
    var alerts: map<string, AlertRow>

    constructor ()
      ensures states == map[] && snapshots == [] && events == [] && alerts == map[]
    {
      states, snapshots, events, alerts := map[], [], [], map[];
    }

    /**
     * Stores a snapshot and derives lifecycle events. Rolls back, changing nothing, when an
     * id is listed twice (the primary key of model_snapshot_items) or the database fails.
     */
    method ProcessModelObservation(provider: string, observed: seq<ObservedModel>, now: Time, databaseUp: bool)
        returns (r: Result<seq<ModelEvent>>)
      modifies this
      ensures r.Ok? <==> databaseUp && DistinctIds(observed)
      ensures r.Err? ==> states == old(states) && snapshots == old(snapshots) && events == old(events)
      ensures r.Ok? ==> Committed(Observation(provider, observed, now), old(states), states, r.value)
      ensures r.Ok? ==> ObservationOutcome(provider, observed, now, old(states), states, r.value)
      ensures r.Ok? ==> events == old(events) + r.value
      ensures r.Ok? ==> snapshots == old(snapshots) + [Snapshot(provider, now, observed)]
      ensures alerts == old(alerts)
    {
      var keys: set<string> := {};
      for i := 0 to |observed|
        invariant keys == set o | o in observed[..i] :: o.id
        invariant DistinctIds(observed[..i])
      {
        assert observed[..i + 1] == observed[..i] + [observed[i]];
        if observed[i].id in keys {
          return Err("duplicate key value violates unique constraint");
        }
        keys := keys + {observed[i].id};
      }
      assert observed[..|observed|] == observed;

      var current := states;
      var next, written := ObserveListed(provider, observed, now, current);
      next, written := MarkMissing(provider, observed, now, current, next, written);
      if !databaseUp {
        return Err("database unavailable");
      }
      ObservationLeaves(provider, observed, now, current, next, written);
      states, events := next, events + written;
      snapshots := snapshots + [Snapshot(provider, now, observed)];
      return Ok(written);
    }

    /** The first loop of the observation: added, returned and capability_changed. */
    static method ObserveListed(provider: string, observed: seq<ObservedModel>, now: Time,
                                current: map<ModelRef, ModelState>)
        returns (next: map<ModelRef, ModelState>, written: seq<ModelEvent>)
      requires DistinctIds(observed)
      ensures StandsAt(next, written, ref => EffectSoFar(provider, observed, |observed|, now, current, ref))
    {
      next, written := current, [];
      for i := 0 to |observed|
        invariant StandsAt(next, written, ref => EffectSoFar(provider, observed, i, now, current, ref))
      {
        var seen := observed[i];
        var ref := ModelRef(provider, seen.id);
        var effect := ObservedRow(ref, Get(current, ref), seen, now);
        ObservedNext(provider, observed, i, now, current);
        OneRowWritten(next, written, other => EffectSoFar(provider, observed, i, now, current, other),
                      ref, effect.row.value, effect.events,
                      other => EffectSoFar(provider, observed, i + 1, now, current, other));
        next, written := next[ref := effect.row.value], written + effect.events;
      }
    }

    /** The second loop: known models of the provider that were not listed, in any order. */
    static method MarkMissing(provider: string, observed: seq<ObservedModel>, now: Time,
                              current: map<ModelRef, ModelState>, states: map<ModelRef, ModelState>, log: seq<ModelEvent>)
        returns (next: map<ModelRef, ModelState>, written: seq<ModelEvent>)
      requires StandsAt(states, log, ref => EffectSoFar(provider, observed, |observed|, now, current, ref))
      ensures Committed(Observation(provider, observed, now), current, next, written)
    {
      next, written := states, log;
      var left := set ref | ref in current.Keys && ref.provider == provider && FindObserved(observed, ref.model).None?;
      ghost var all := left;
      assert observed[..|observed|] == observed;
      while left != {}
        invariant left <= all
        invariant StandsAt(next, written,
                           ref => if ref in all - left then MissingRow(ref, current[ref], now)
                                  else EffectSoFar(provider, observed, |observed|, now, current, ref))
        decreases left
      {
        var ref :| ref in left;
        var effect := MissingRow(ref, current[ref], now);
        OneRowWritten(next, written,
                      other => if other in all - left then MissingRow(other, current[other], now)
                               else EffectSoFar(provider, observed, |observed|, now, current, other),
                      ref, effect.row.value, effect.events,
                      other => if other in all - (left - {ref}) then MissingRow(other, current[other], now)
                               else EffectSoFar(provider, observed, |observed|, now, current, other));
        next, written := next[ref := effect.row.value], written + effect.events;
        left := left - {ref};
      }
    }

    /** Deactivates one model when a probe proves it unavailable; None if there was nothing to do. */
    method MarkModelInactive(ref: ModelRef, now: Time, reason: string, databaseUp: bool)
        returns (r: Result<Option<ModelEvent>>)
      modifies this`states, this`events
      ensures r.Ok? <==> databaseUp
      ensures r.Err? ==> states == old(states) && events == old(events)
      ensures r.Ok? ==>
                var written := if r.value.Some? then [r.value.value] else [];
                Committed(Deactivation(ref, now, reason), old(states), states, written) && events == old(events) + written
      ensures r.Ok? ==>
                var written := if r.value.Some? then [r.value.value] else [];
                forall other :: DeactivationOutcome(other, other == ref, Get(old(states), other), now, reason,
                                                    Get(states, other), written)
    {
      if !databaseUp {
        return Err("database unavailable");
      }
      var current := states;
      DeactivationCommits(current, ref, now, reason);
      if ref !in current || !Deactivatable(current[ref]) {
        return Ok(None);
      }
      var effect := DeactivatedRow(ref, current[ref], now, reason);
      states, events := states[ref := effect.row.value], events + effect.events;
      return Ok(Some(effect.events[0]));
    }

    /** Deactivates every runnable model of a provider. */
    method MarkAllModelsInactive(provider: string, now: Time, reason: string, databaseUp: bool)
        returns (r: Result<seq<ModelEvent>>)
      modifies this`states, this`events
      ensures r.Ok? <==> databaseUp
      ensures r.Err? ==> states == old(states) && events == old(events)
      ensures r.Ok? ==> Committed(ProviderDeactivation(provider, now, reason), old(states), states, r.value)
                        && events == old(events) + r.value
      ensures r.Ok? ==> forall ref: ModelRef ::
                DeactivationOutcome(ref, ref.provider == provider, Get(old(states), ref), now, reason,
                                    Get(states, ref), r.value)
    {
      ghost var t := ProviderDeactivation(provider, now, reason);
      var current := states;
      var next, written: seq<ModelEvent> := current, [];
      var left := set ref | ref in current.Keys && ref.provider == provider && Deactivatable(current[ref]);
      ghost var all := left;
      while left != {}
        invariant left <= all
        invariant StandsAt(next, written,
                           ref => if ref in left then Effect(Get(current, ref), []) else EffectOn(t, ref, Get(current, ref)))
        decreases left
        modifies {}
      {
        var ref :| ref in left;
        var effect := DeactivatedRow(ref, current[ref], now, reason);
        OneRowWritten(next, written,
                      other => if other in left then Effect(Get(current, other), []) else EffectOn(t, other, Get(current, other)),
                      ref, effect.row.value, effect.events,
                      other => if other in left - {ref} then Effect(Get(current, other), [])
                               else EffectOn(t, other, Get(current, other)));
        next, written := next[ref := effect.row.value], written + effect.events;
        left := left - {ref};
      }
      if !databaseUp {
        return Err("database unavailable");
      }
      ProviderDeactivationLeaves(provider, now, reason, current, next, written);
      states, events := next, events + written;
      return Ok(written);
    }

    /** Active, non-excluded chat and embedding models, each once. */
    method RunnableModels() returns (models: seq<PlanItem>)
      ensures Agrees(models, states)
      ensures forall i, j :: 0 <= i < j < |models| ==> models[i].ref != models[j].ref
      ensures forall item :: item in models <==>
                && item.ref in states && states[item.ref].status == Active && !states[item.ref].excluded
                && (states[item.ref].capability == Chat || states[item.ref].capability == Embedding)
                && item == PlanItem(item.ref, states[item.ref].capability, false)
    {
      models := [];
      var left := states.Keys;
      while left != {}
        invariant left <= states.Keys
        invariant forall ref :: ItemsOf(models, ref) == if ref in left then [] else RunnableItems(ref, Get(states, ref))
        decreases left
      {
        var ref :| ref in left;
        var more := RunnableItems(ref, Some(states[ref]));
        forall other ensures ItemsOf(models + more, other) == ItemsOf(models, other) + (if other == ref then more else []) {
          OneMoreItem(models, ref, Some(states[ref]), other);
        }
        models := models + more;
        left := left - {ref};
      }
      AgreesMeans(models, states);
    }

    /** The models inactive for at least the threshold. */
    method InactiveModelsForAlert(threshold: int, now: Time) returns (due: seq<ModelRef>)
      ensures Distinct(due)
      ensures forall ref :: ref in due <==>
                && ref in states && states[ref].status == Inactive && states[ref].missingSince.Some?
                && states[ref].missingSince.value <= now - threshold
    {
      due := [];
      var left := states.Keys;
      while left != {}
        invariant left <= states.Keys && Distinct(due)
        invariant forall ref :: ref in due <==>
                    ref in states && ref !in left && DueForAlert(Some(states[ref]), now, threshold)
        decreases left
      {
        var ref :| ref in left;
        if DueForAlert(Some(states[ref]), now, threshold) {
          due := due + [ref];
        }
        left := left - {ref};
      }
    }

    /** The newest known chat or embedding capability of each model of the provider. */
    method LastRunnableCapabilities(provider: string) returns (capabilities: map<string, Capability>)
      ensures forall id :: MayAnswer(states, snapshots, ModelRef(provider, id), Get(capabilities, id))
    {
      var rows := ItemRows(snapshots, provider);
      var left := set ref | ref in states.Keys && ref.provider == provider && states[ref].capability.Runnable();
      ghost var all := left;
      while left != {}
        invariant left <= all
        invariant forall id, row :: (id, row) in rows <==>
                    || ItemRow(snapshots, ModelRef(provider, id), row)
                    || (ModelRef(provider, id) in all - left && StateRow(states, ModelRef(provider, id), row))
        decreases left
      {
        var ref :| ref in left;
        rows := rows + [(ref.model, Sighting(states[ref].lastSeenAt, states[ref].capability))];
        left := left - {ref};
      }
      assert forall id, row :: (id, row) in rows <==> KnownRow(states, snapshots, ModelRef(provider, id), row);
      capabilities := NewestOfEach(rows);
      forall id ensures MayAnswer(states, snapshots, ModelRef(provider, id), Get(capabilities, id)) {
        NewestIsNewest(rows, id);
      }
    }

    method EmailAlertExists(key: string) returns (delivered: bool)
      ensures delivered <==> key in alerts && alerts[key].error == ""
    {
      delivered := key in alerts && alerts[key].error == "";
    }

    /** Records an attempt; a recorded delivery is never overwritten. */
    method RecordEmailAlert(key: string, row: AlertRow)
      modifies this`alerts
      ensures key in old(alerts) && old(alerts)[key].error == "" ==> alerts == old(alerts)
      ensures key !in old(alerts) || old(alerts)[key].error != "" ==> alerts == old(alerts)[key := row]
    {
      if key !in alerts {
        alerts := alerts[key := row];
      } else if alerts[key].error != "" {
        alerts := alerts[key := row];
      }
    }

    method RecordModelEvent(event: ModelEvent)
      modifies this`events
      ensures events == old(events) + [event]
    {
      events := events + [event];
    }

    /** Deletes history older than the cutoff, but no alert of a model that is still inactive. */
    method PruneHistoryBefore(cutoff: Time)
      modifies this
      ensures states == old(states)
      ensures events == EventsSince(old(events), cutoff)
      ensures snapshots == SnapshotsSince(old(snapshots), cutoff)
      ensures alerts == KeptAlerts(old(alerts), states, cutoff)
      ensures events == Filter(old(events), (e: ModelEvent) => e.observedAt >= cutoff)
      ensures snapshots == Filter(old(snapshots), (snapshot: Snapshot) => snapshot.observedAt >= cutoff)
      ensures AlertsKept(old(alerts), alerts, states, cutoff)
    {
      EventsSinceIsFilter(events, cutoff);
      SnapshotsSinceIsFilter(snapshots, cutoff);
      events := EventsSince(events, cutoff);
      alerts := map key | key in alerts && !(alerts[key].sentAt < cutoff && !Protected(alerts[key], states)) :: alerts[key];
      snapshots := SnapshotsSince(snapshots, cutoff);
    }
  }

  lemma {:induction false} ObservedNext(provider: string, observed: seq<ObservedModel>, i: nat, now: Time,
                                        current: map<ModelRef, ModelState>)
    requires i < |observed| && DistinctIds(observed)
    ensures var ref := ModelRef(provider, observed[i].id);
            && EffectSoFar(provider, observed, i, now, current, ref) == Effect(Get(current, ref), [])
            && EffectSoFar(provider, observed, i + 1, now, current, ref) == ObservedRow(ref, Get(current, ref), observed[i], now)
            && forall other: ModelRef :: other != ref ==>
                 EffectSoFar(provider, observed, i + 1, now, current, other) == EffectSoFar(provider, observed, i, now, current, other)
  {
    assert observed[..i + 1][..i] == observed[..i];
    FindObservedSome(observed[..i], observed[i].id);
  }

  // ----- the rows of the capability query -----

  function RowsOfItems(items: seq<ObservedModel>, at: Time): (rows: seq<(string, Sighting)>)
    ensures forall id, row :: (id, row) in rows <==>
              exists o :: o in items && o.id == id && o.capability.Runnable() && row == Sighting(at, o.capability)
  {
    if items == [] then []
    else
      var init, o := items[..|items| - 1], items[|items| - 1];
      assert items == init + [o];
      RowsOfItems(init, at) + (if o.capability.Runnable() then [(o.id, Sighting(at, o.capability))] else [])
  }

  function ItemRows(snapshots: seq<Snapshot>, provider: string): (rows: seq<(string, Sighting)>)
    ensures forall id, row :: (id, row) in rows <==> ItemRow(snapshots, ModelRef(provider, id), row)
  {
    if snapshots == [] then []
    else
      var init, last := snapshots[..|snapshots| - 1], snapshots[|snapshots| - 1];
      assert snapshots == init + [last];
      ItemRows(init, provider) + (if last.provider == provider then RowsOfItems(last.items, last.observedAt) else [])
  }

  function NewestFor(rows: seq<(string, Sighting)>, id: string): Option<Sighting> {
    if rows == [] then None
    else
      var (rowId, row) := rows[|rows| - 1];
      var rest := NewestFor(rows[..|rows| - 1], id);
      if rowId == id && (rest.None? || rest.value.at < row.at) then Some(row) else rest
  }

  function NewestOfEach(rows: seq<(string, Sighting)>): map<string, Capability> {
    var ids := set i | 0 <= i < |rows| :: rows[i].0;
    map id | id in ids && NewestFor(rows, id).Some? :: NewestFor(rows, id).value.capability
  }

  lemma {:induction false} NewestIsNewest(rows: seq<(string, Sighting)>, id: string)
    ensures NewestFor(rows, id).Some? ==> (id, NewestFor(rows, id).value) in rows
    ensures forall row :: (id, row) in rows ==> NewestFor(rows, id).Some? && row.at <= NewestFor(rows, id).value.at
    ensures id in NewestOfEach(rows) <==> NewestFor(rows, id).Some?
  {
    if rows != [] {
      var init, last := rows[..|rows| - 1], rows[|rows| - 1];
      NewestIsNewest(init, id);
      assert rows == init + [last] && last == (last.0, last.1);
      assert last in rows;
    }
  }
}
