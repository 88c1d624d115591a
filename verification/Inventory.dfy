/** What every run of the worker keeps true of the inventory, its event log and the plan. */
module Inventory {
  import opened Basics
  import opened Lifecycle
  import opened EventLog
  import opened PlanCache
  import opened Monitor
  import opened Keys

  /** Rows are sound, the log replays to them and has the right shape, and the plan agrees. */
  ghost predicate Consistent(w: World) {
    && AllSound(w.states)
    && LogMatches(w.states, w.journal)
    && ShapedHistories(w.states, w.journal)
    && Agrees(w.plan, w.states)
  }

  lemma {:induction false} ConsistentKept(s: Settings, w: World, step: Step, v: World)
    requires Consistent(w) && Next(s, w, step, v)
    ensures Consistent(v)
  {
    if Transactional(step) {
      var t := TransitionOf(step);
      TransactionalStep(s, w, step, v);
      SoundnessKept(t, w.states, v.states, step.written);
      LogMatchesKept(t, w.states, v.states, w.journal, step.written);
      ShapedHistoriesKept(t, w.states, v.states, w.journal, step.written);
      match step {
        case Refresh(provider, observed, now, written) =>
          RefreshKeepsAgreement(w.plan, provider, observed, now, w.states, v.states, written);
        case ProviderDown(provider, now, reason, written) =>
          ProviderDownAgrees(w.plan, provider, now, reason, w.states, v.states, written);
        case ModelGone(ref, now, reason, written) =>
          ModelGoneAgrees(w.plan, ref, now, reason, w.states, v.states, written);
      }
    } else {
      InventoryFrame(s, w, step, v);
      forall ref ensures ReplayModel(Changes(v.journal, ref)) == View(Get(v.states, ref)) {
        assert ReplayModel(Changes(w.journal, ref)) == View(Get(w.states, ref));
      }
      forall ref ensures ShapedHistory(Get(v.states, ref), Kinds(Changes(v.journal, ref))) {
        assert ShapedHistory(Get(w.states, ref), Kinds(Changes(w.journal, ref)));
      }
    }
  }

  lemma {:induction false} AlwaysConsistent(s: Settings, ws: seq<World>, steps: seq<Step>, k: nat)
    requires IsRun(s, ws, steps) && k < |ws|
    ensures Consistent(ws[k])
  {
    if k > 0 {
      AlwaysConsistent(s, ws, steps, k - 1);
      assert Next(s, ws[k - 1], steps[k - 1], ws[k - 1 + 1]);
      ConsistentKept(s, ws[k - 1], steps[k - 1], ws[k]);
    }
  }

  /** In every reachable state a model is inactive exactly while missing_since is set. */
  lemma {:induction false} LifecycleInvariant(s: Settings, ws: seq<World>, steps: seq<Step>, k: nat, ref: ModelRef)
    requires IsRun(s, ws, steps) && k < |ws| && ref in ws[k].states
    ensures ws[k].states[ref].status == Inactive <==> ws[k].states[ref].missingSince.Some?
  {
    AlwaysConsistent(s, ws, steps, k);
  }

  /** Replaying every event ever written rebuilds model_states, after any run. */
  lemma {:induction false} LogReplaysToStates(s: Settings, ws: seq<World>, steps: seq<Step>, k: nat)
    requires IsRun(s, ws, steps) && k < |ws|
    ensures var w := ws[k]; var table := Replay(w.journal);
            && table.Keys == w.states.Keys
            && forall ref :: ref in w.states ==>
                 && table[ref].status == w.states[ref].status
                 && table[ref].capability == (if w.states[ref].capability == Other("") then Unknown else w.states[ref].capability)
                 && table[ref].firstSeenAt == w.states[ref].firstSeenAt
                 && table[ref].missingSince == w.states[ref].missingSince
  {
    AlwaysConsistent(s, ws, steps, k);
    LogMatchesMeans(ws[k].states, ws[k].journal);
  }

  /** The plan lists each runnable model once and nothing else, after any run, for all providers. */
  lemma {:induction false} PlanIsRunnableModels(s: Settings, ws: seq<World>, steps: seq<Step>, k: nat)
    requires IsRun(s, ws, steps) && k < |ws|
    ensures var w := ws[k];
            && (forall i, j :: 0 <= i < j < |w.plan| ==> w.plan[i].ref != w.plan[j].ref)
            && (forall item :: item in w.plan <==>
                  && item.ref in w.states && w.states[item.ref].status == Active && !w.states[item.ref].excluded
                  && (w.states[item.ref].capability == Chat || w.states[item.ref].capability == Embedding)
                  && item == PlanItem(item.ref, w.states[item.ref].capability, false))
  {
    AlwaysConsistent(s, ws, steps, k);
    AgreesMeans(ws[k].plan, ws[k].states);
  }

  /** Every model's history is added capability_changed* (inactive returned capability_changed*)* [inactive]. */
  lemma {:induction false} HistoriesHaveGrammar(s: Settings, ws: seq<World>, steps: seq<Step>, k: nat, ref: ModelRef)
    requires IsRun(s, ws, steps) && k < |ws|
    ensures IsHistory(Kinds(Changes(ws[k].journal, ref)))
    ensures Changes(ws[k].journal, ref) == [] <==> ref !in ws[k].states
    ensures var history := Changes(ws[k].journal, ref);
            && (history != [] ==> history[0].eventType == Added)
            && (forall i :: 1 <= i < |history| ==>
                  && history[i].eventType in {Returned, CapabilityChanged, TurnedInactive}
                  && (history[i].eventType == Returned <==> history[i - 1].eventType == TurnedInactive))
  {
    AlwaysConsistent(s, ws, steps, k);
    assert ShapedHistory(Get(ws[k].states, ref), Kinds(Changes(ws[k].journal, ref)));
    var history := Changes(ws[k].journal, ref);
    HistoryMeans(Kinds(history));
    assert forall i :: 0 <= i < |history| ==> Kinds(history)[i] == history[i].eventType;
  }

  /** The grammar, event by event. */
  lemma {:induction false} HistoryMeans(kinds: seq<EventType>)
    requires IsHistory(kinds)
    ensures kinds != [] ==> kinds[0] == Added
    ensures forall i :: 1 <= i < |kinds| ==>
              kinds[i] in {Returned, CapabilityChanged, TurnedInactive} && (kinds[i] == Returned <==> kinds[i - 1] == TurnedInactive)
  {
    if kinds != [] {
      var c := kinds[1..];
      AbsencesOrdered(c);
      forall i | 1 <= i < |kinds|
        ensures kinds[i] in {Returned, CapabilityChanged, TurnedInactive} && (kinds[i] == Returned <==> kinds[i - 1] == TurnedInactive)
      {
        assert kinds[i] == c[i - 1];
        if i >= 2 {
          assert kinds[i - 1] == c[i - 2];
        }
      }
    }
  }

  lemma {:induction false} BalanceMeans(log: seq<ModelEvent>, provider: string)
    ensures Balance(log, provider)
            == |Filter(log, (e: ModelEvent) => e.changed && e.ref.provider == provider && e.eventType in {Added, Returned})|
               - |Filter(log, (e: ModelEvent) => e.changed && e.ref.provider == provider && e.eventType == TurnedInactive)|
  {
    if log != [] {
      BalanceMeans(log[..|log| - 1], provider);
    }
  }

  /** Active models of a provider = #added + #returned - #inactive, after every step. */
  lemma {:induction false} ActiveCountIsBalance(s: Settings, ws: seq<World>, steps: seq<Step>, k: nat, provider: string)
    requires IsRun(s, ws, steps) && k < |ws|
    ensures var states := ws[k].states;
            |set ref | ref in states && ref.provider == provider && states[ref].status == Active|
            == |Filter(ws[k].journal, (e: ModelEvent) => e.changed && e.ref.provider == provider && e.eventType in {Added, Returned})|
               - |Filter(ws[k].journal, (e: ModelEvent) => e.changed && e.ref.provider == provider && e.eventType == TurnedInactive)|
  {
    BalanceMeans(ws[k].journal, provider);
    AlwaysConsistent(s, ws, steps, k);
    ActiveModelsBalance(ws[k].states, ws[k].journal, provider);
  }

  /** Models are never forgotten and keep the time they were first seen. */
  lemma {:induction false} FirstSightIsForever(s: Settings, ws: seq<World>, steps: seq<Step>, j: nat, k: nat, ref: ModelRef)
    requires IsRun(s, ws, steps) && j <= k < |ws| && ref in ws[j].states
    ensures ref in ws[k].states && ws[k].states[ref].firstSeenAt == ws[j].states[ref].firstSeenAt
    decreases k - j
  {
    if j < k {
      FirstSightIsForever(s, ws, steps, j, k - 1, ref);
      var w, step, v := ws[k - 1], steps[k - 1], ws[k - 1 + 1];
      assert Next(s, w, step, v);
      if Transactional(step) {
        TransactionalStep(s, w, step, v);
        assert Get(v.states, ref) == EffectOn(TransitionOf(step), ref, Get(w.states, ref)).row;
      } else {
        InventoryFrame(s, w, step, v);
      }
    }
  }

  // ----- retention -----

  /** The event and snapshot tables are exactly the recent part of everything ever written. */
  ghost predicate TablesAreRecent(w: World) {
    && (w.horizon.None? ==> w.events == w.journal && w.snapshots == w.archive)
    && (w.horizon.Some? ==>
          && w.horizon.value <= w.now
          && w.events == EventsSince(w.journal, w.horizon.value)
          && w.snapshots == SnapshotsSince(w.archive, w.horizon.value))
  }

  lemma {:induction false} EventsSinceMore(log: seq<ModelEvent>, e: ModelEvent, cutoff: Time)
    requires e.observedAt >= cutoff
    ensures EventsSince(log + [e], cutoff) == EventsSince(log, cutoff) + [e]
  {
    assert (log + [e])[..|log|] == log;
  }

  lemma {:induction false} EventsSinceAppend(a: seq<ModelEvent>, b: seq<ModelEvent>, cutoff: Time)
    requires forall e :: e in b ==> e.observedAt >= cutoff
    ensures EventsSince(a + b, cutoff) == EventsSince(a, cutoff) + b
  {
    if b == [] {
      assert a + b == a;
    } else {
      var init, last := b[..|b| - 1], b[|b| - 1];
      assert b == init + [last] && last in b;
      assert forall e :: e in init ==> e in b;
      EventsSinceAppend(a, init, cutoff);
      EventsSinceMore(a + init, last, cutoff);
      assert a + b == a + init + [last];
      assert EventsSince(a, cutoff) + init + [last] == EventsSince(a, cutoff) + b;
    }
  }

  lemma {:induction false} EventsSinceTwice(log: seq<ModelEvent>, c: Time, d: Time)
    ensures EventsSince(EventsSince(log, c), d) == EventsSince(log, Max(c, d))
  {
    if log != [] {
      var init, e := log[..|log| - 1], log[|log| - 1];
      EventsSinceTwice(init, c, d);
      var kept := EventsSince(init, c);
      if e.observedAt >= c {
        assert EventsSince(log, c) == kept + [e];
        assert (kept + [e])[..|kept + [e]| - 1] == kept;
      } else {
        assert EventsSince(log, c) == kept;
      }
    }
  }

  lemma {:induction false} SnapshotsSinceTwice(log: seq<Snapshot>, c: Time, d: Time)
    ensures SnapshotsSince(SnapshotsSince(log, c), d) == SnapshotsSince(log, Max(c, d))
  {
    if log != [] {
      var init, e := log[..|log| - 1], log[|log| - 1];
      SnapshotsSinceTwice(init, c, d);
      var kept := SnapshotsSince(init, c);
      if e.observedAt >= c {
        assert SnapshotsSince(log, c) == kept + [e];
        assert (kept + [e])[..|kept + [e]| - 1] == kept;
      } else {
        assert SnapshotsSince(log, c) == kept;
      }
    }
  }

  /** Everything a transaction writes carries its time. */
  lemma {:induction false} WrittenNow(t: Transition, before: map<ModelRef, ModelState>, after: map<ModelRef, ModelState>,
                                      written: seq<ModelEvent>, e: ModelEvent)
    requires Committed(t, before, after, written) && e in written
    ensures e.observedAt == t.now && EffectOn(t, e.ref, Get(before, e.ref)).events == [e]
  {
    ChangesOwn(written, e.ref);
    assert e in Changes(written, e.ref);
    assert Changes(written, e.ref) == EffectOn(t, e.ref, Get(before, e.ref)).events;
  }

  /** Appending recent rows to the log appends them to the table. */
  lemma {:induction false} RecentAfterWrite(w: World, v: World, more: seq<ModelEvent>, taken: seq<Snapshot>)
    requires TablesAreRecent(w) && v.horizon == w.horizon && w.now <= v.now
    requires v.journal == w.journal + more && v.events == w.events + more
    requires v.archive == w.archive + taken && v.snapshots == w.snapshots + taken && |taken| <= 1
    requires forall e :: e in more ==> e.observedAt >= w.now
    requires taken != [] ==> taken[0].observedAt >= w.now
    ensures TablesAreRecent(v)
  {
    if w.horizon.Some? {
      EventsSinceAppend(w.journal, more, w.horizon.value);
      if taken == [] {
        assert w.archive + taken == w.archive && w.snapshots + taken == w.snapshots;
      } else {
        assert taken == [taken[0]];
        assert (w.archive + taken)[..|w.archive|] == w.archive;
      }
    }
  }

  lemma {:induction false} RecentAfterPrune(w: World, v: World, cutoff: Time)
    requires TablesAreRecent(w) && w.now < v.now && cutoff <= v.now
    requires v == Pruned(w, cutoff).(now := v.now)
    ensures TablesAreRecent(v)
  {
    if w.horizon.Some? {
      EventsSinceTwice(w.journal, w.horizon.value, cutoff);
      SnapshotsSinceTwice(w.archive, w.horizon.value, cutoff);
    }
  }

  lemma {:induction false} TablesAreRecentKept(s: Settings, w: World, step: Step, v: World)
    requires TablesAreRecent(w) && Next(s, w, step, v)
    ensures TablesAreRecent(v)
  {
    if Transactional(step) {
      TransactionalStep(s, w, step, v);
      forall e | e in step.written ensures e.observedAt >= w.now {
        WrittenNow(TransitionOf(step), w.states, v.states, step.written, e);
      }
      var taken := if step.Refresh? then [Snapshot(step.provider, step.now, step.observed)] else [];
      assert w.archive + [] == w.archive && w.snapshots + [] == w.snapshots;
      RecentAfterWrite(w, v, step.written, taken);
    } else if step.Prune? {
      RecentAfterPrune(w, v, step.now - s.history);
    } else {
      var more := QuietWrites(s, w, step, v);
      assert w.archive + [] == w.archive && w.snapshots + [] == w.snapshots;
      RecentAfterWrite(w, v, more, []);
    }
  }

  /** Steps outside the inventory write at most one diagnostic. */
  lemma {:induction false} QuietWrites(s: Settings, w: World, step: Step, v: World) returns (more: seq<ModelEvent>)
    requires Next(s, w, step, v) && !Transactional(step) && !step.Prune?
    ensures |more| <= 1 && v.journal == w.journal + more && v.events == w.events + more
    ensures forall e :: e in more ==> e.observedAt >= w.now
    ensures v.horizon == w.horizon && v.archive == w.archive && v.snapshots == w.snapshots && w.now <= v.now
  {
    more := if v.journal == w.journal then [] else [v.journal[|v.journal| - 1]];
    assert w.journal + [] == w.journal && w.events + [] == w.events;
  }

  /** Retention deletes exactly the history older than the latest cutoff, whatever ran in between. */
  lemma {:induction false} RetentionIsExact(s: Settings, ws: seq<World>, steps: seq<Step>, k: nat)
    requires IsRun(s, ws, steps) && k < |ws|
    ensures TablesAreRecent(ws[k])
  {
    if k > 0 {
      RetentionIsExact(s, ws, steps, k - 1);
      assert Next(s, ws[k - 1], steps[k - 1], ws[k - 1 + 1]);
      TablesAreRecentKept(s, ws[k - 1], steps[k - 1], ws[k]);
    }
  }
}
