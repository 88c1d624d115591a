/**
 * The "last known runnable capability": a query over the current rows and the retained
 * snapshots, compared with what the unpruned history of observations says.
 */
module CapabilityMemory {
  import opened Basics
  import opened Lifecycle
  import opened PlanCache
  import opened Monitor
  import opened Inventory
  import opened Detection

  datatype Sighting = Sighting(at: Time, capability: Capability)

  /** How one snapshot saw a model. */
  function SeenIn(snapshot: Snapshot, ref: ModelRef): Option<ObservedModel> {
    if snapshot.provider == ref.provider then FindObserved(snapshot.items, ref.model) else None
  }

  /** The newest observation of a model in the whole history. */
  function LastSighting(archive: seq<Snapshot>, ref: ModelRef): Option<Sighting> {
    if archive == [] then None
    else
      var snapshot := archive[|archive| - 1];
      var seen := SeenIn(snapshot, ref);
      if seen.Some? then Some(Sighting(snapshot.observedAt, seen.value.capability))
      else LastSighting(archive[..|archive| - 1], ref)
  }

  /** The newest observation of a model as chat or embedding in the whole history. */
  function LastRunnable(archive: seq<Snapshot>, ref: ModelRef): Option<Sighting> {
    if archive == [] then None
    else
      var snapshot := archive[|archive| - 1];
      var seen := SeenIn(snapshot, ref);
      if seen.Some? && seen.value.capability.Runnable() then Some(Sighting(snapshot.observedAt, seen.value.capability))
      else LastRunnable(archive[..|archive| - 1], ref)
  }

  /** The rows of the query LastRunnableCapabilities: the model's own row and its retained snapshot items. */
  ghost predicate StateRow(states: map<ModelRef, ModelState>, ref: ModelRef, row: Sighting) {
    && ref in states && (states[ref].capability == Chat || states[ref].capability == Embedding)
    && row == Sighting(states[ref].lastSeenAt, states[ref].capability)
  }

  ghost predicate ItemRow(snapshots: seq<Snapshot>, ref: ModelRef, row: Sighting) {
    exists snapshot, o :: snapshot in snapshots && snapshot.provider == ref.provider && o in snapshot.items
      && o.id == ref.model && (o.capability == Chat || o.capability == Embedding)
      && row == Sighting(snapshot.observedAt, o.capability)
  }

  ghost predicate KnownRow(states: map<ModelRef, ModelState>, snapshots: seq<Snapshot>, ref: ModelRef, row: Sighting) {
    StateRow(states, ref, row) || ItemRow(snapshots, ref, row)
  }

  /** DISTINCT ON (model_id) ... ORDER BY observed_at DESC: any newest row may answer. */
  ghost predicate MayAnswer(states: map<ModelRef, ModelState>, snapshots: seq<Snapshot>, ref: ModelRef,
                            answer: Option<Capability>)
  {
    match answer
    case None => forall row :: !KnownRow(states, snapshots, ref, row)
    case Some(c) =>
      exists row :: KnownRow(states, snapshots, ref, row) && row.capability == c
                    && forall other :: KnownRow(states, snapshots, ref, other) ==> other.at <= row.at
  }

  // ----- the run invariant -----

  ghost predicate Increasing(archive: seq<Snapshot>) {
    forall i, j :: 0 <= i < j < |archive| ==> archive[i].observedAt < archive[j].observedAt
  }

  /** The model row repeats the newest observation, and snapshots are in order of time. */
  ghost predicate Remembers(w: World) {
    && Increasing(w.archive)
    && (forall snapshot :: snapshot in w.archive ==> snapshot.observedAt <= w.now && DistinctIds(snapshot.items))
    && (forall ref :: RowRepeats(Get(w.states, ref), LastSighting(w.archive, ref)))
  }

  predicate RowRepeats(row: Option<ModelState>, last: Option<Sighting>) {
    last == if row.None? then None else Some(Sighting(row.value.lastSeenAt, row.value.capability))
  }

  lemma {:induction false} RowRepeatsKept(t: Transition, ref: ModelRef, row: Option<ModelState>,
                                          archive: seq<Snapshot>, taken: seq<Snapshot>)
    requires RowRepeats(row, LastSighting(archive, ref))
    requires taken == if t.Observation? then [Snapshot(t.provider, t.now, t.observed)] else []
    ensures RowRepeats(EffectOn(t, ref, row).row, LastSighting(archive + taken, ref))
  {
    if t.Observation? {
      assert (archive + taken)[..|archive + taken| - 1] == archive;
    } else {
      assert archive + taken == archive;
    }
  }

  lemma {:induction false} RemembersKept(s: Settings, w: World, step: Step, v: World)
    requires Remembers(w) && Next(s, w, step, v)
    ensures Remembers(v)
  {
    if Transactional(step) {
      var t := TransitionOf(step);
      TransactionalStep(s, w, step, v);
      var taken := if t.Observation? then [Snapshot(t.provider, t.now, t.observed)] else [];
      assert v.archive == w.archive + taken;
      forall ref ensures RowRepeats(Get(v.states, ref), LastSighting(v.archive, ref)) {
        assert Get(v.states, ref) == EffectOn(t, ref, Get(w.states, ref)).row;
        assert RowRepeats(Get(w.states, ref), LastSighting(w.archive, ref));
        RowRepeatsKept(t, ref, Get(w.states, ref), w.archive, taken);
      }
    } else {
      InventoryFrame(s, w, step, v);
      forall ref ensures RowRepeats(Get(v.states, ref), LastSighting(v.archive, ref)) {
        assert RowRepeats(Get(w.states, ref), LastSighting(w.archive, ref));
      }
    }
  }

  lemma {:induction false} AlwaysRemembers(s: Settings, ws: seq<World>, steps: seq<Step>, k: nat)
    requires IsRun(s, ws, steps) && k < |ws|
    ensures Remembers(ws[k])
  {
    if k > 0 {
      AlwaysRemembers(s, ws, steps, k - 1);
      assert Next(s, ws[k - 1], steps[k - 1], ws[k - 1 + 1]);
      RemembersKept(s, ws[k - 1], steps[k - 1], ws[k]);
    } else {
      assert forall ref :: LastSighting([], ref) == None;
    }
  }

  // ----- reading the history -----

  /** LastRunnable is the newest item row of the unpruned history. */
  lemma {:induction false} LastRunnableIsNewest(archive: seq<Snapshot>, ref: ModelRef)
    requires Increasing(archive)
    requires forall snapshot :: snapshot in archive ==> DistinctIds(snapshot.items)
    ensures LastRunnable(archive, ref).Some? ==> ItemRow(archive, ref, LastRunnable(archive, ref).value)
    ensures forall row :: ItemRow(archive, ref, row) ==>
              LastRunnable(archive, ref).Some? && row.at <= LastRunnable(archive, ref).value.at
              && (row.at == LastRunnable(archive, ref).value.at ==> row == LastRunnable(archive, ref).value)
  {
    if archive != [] {
      var init, snapshot := archive[..|archive| - 1], archive[|archive| - 1];
      assert archive == init + [snapshot];
      LastRunnableIsNewest(init, ref);
      forall row ensures ItemRow(archive, ref, row) <==> ItemRow(init, ref, row) || RowOfSnapshot(snapshot, ref, row) {
        ItemRowMore(init, snapshot, ref, row);
      }
      forall row | ItemRow(init, ref, row) ensures row.at < snapshot.observedAt {
        OlderRow(archive, ref, row);
      }
      SnapshotRow(snapshot, ref);
    }
  }

  ghost predicate RowOfSnapshot(snapshot: Snapshot, ref: ModelRef, row: Sighting) {
    exists o :: o in snapshot.items && snapshot.provider == ref.provider && o.id == ref.model && o.capability.Runnable()
                && row == Sighting(snapshot.observedAt, o.capability)
  }

  lemma {:induction false} ItemRowMore(init: seq<Snapshot>, snapshot: Snapshot, ref: ModelRef, row: Sighting)
    ensures ItemRow(init + [snapshot], ref, row) <==> ItemRow(init, ref, row) || RowOfSnapshot(snapshot, ref, row)
  {
    assert forall from :: from in init + [snapshot] <==> from in init || from == snapshot;
  }

  lemma {:induction false} OlderRow(archive: seq<Snapshot>, ref: ModelRef, row: Sighting)
    requires archive != [] && Increasing(archive) && ItemRow(archive[..|archive| - 1], ref, row)
    ensures row.at < archive[|archive| - 1].observedAt
  {
  }

  /** A snapshot shows a model at most once. */
  lemma {:induction false} SnapshotRow(snapshot: Snapshot, ref: ModelRef)
    requires DistinctIds(snapshot.items)
    ensures forall row :: RowOfSnapshot(snapshot, ref, row) <==>
              var seen := SeenIn(snapshot, ref);
              seen.Some? && seen.value.capability.Runnable() && row == Sighting(snapshot.observedAt, seen.value.capability)
  {
    FindObservedSome(snapshot.items, ref.model);
    forall o | o in snapshot.items ensures FindObserved(snapshot.items, o.id) == Some(o) {
      OnlyOne(snapshot.items, o);
    }
  }

  lemma {:induction false} OnlyOne(items: seq<ObservedModel>, o: ObservedModel)
    requires DistinctIds(items) && o in items
    ensures FindObserved(items, o.id) == Some(o)
  {
    var i :| 0 <= i < |items| && items[i] == o;
    FindObservedAt(items, i);
  }

  lemma {:induction false} RunnableRowIsLast(archive: seq<Snapshot>, ref: ModelRef)
    requires LastSighting(archive, ref).Some? && LastSighting(archive, ref).value.capability.Runnable()
    ensures LastRunnable(archive, ref) == LastSighting(archive, ref)
  {
    if archive != [] && SeenIn(archive[|archive| - 1], ref).None? {
      RunnableRowIsLast(archive[..|archive| - 1], ref);
    }
  }

  lemma {:induction false} SinceContains(archive: seq<Snapshot>, cutoff: Time)
    ensures forall snapshot :: snapshot in SnapshotsSince(archive, cutoff) <==>
              snapshot in archive && snapshot.observedAt >= cutoff
  {
    if archive != [] {
      SinceContains(archive[..|archive| - 1], cutoff);
      assert archive == archive[..|archive| - 1] + [archive[|archive| - 1]];
    }
  }

  /** The newest runnable observation survives retention if its snapshot does, or if it is still the model's own row. */
  function Retained(w: World, ref: ModelRef): Option<Capability> {
    var last := LastRunnable(w.archive, ref);
    if last.None? then None
    else if w.horizon.None? || w.horizon.value <= last.value.at then Some(last.value.capability)
    else if ref in w.states && w.states[ref].capability.Runnable() then Some(last.value.capability)
    else None
  }

  /** Retained snapshot rows are rows of the history, and those since the horizon are all retained. */
  lemma {:induction false} RetainedRows(w: World, ref: ModelRef, row: Sighting)
    requires TablesAreRecent(w)
    ensures ItemRow(w.snapshots, ref, row) <==> ItemRow(w.archive, ref, row) && (w.horizon.None? || w.horizon.value <= row.at)
  {
    if w.horizon.Some? {
      SinceContains(w.archive, w.horizon.value);
    }
    if ItemRow(w.archive, ref, row) {
      var from, o :| from in w.archive && from.provider == ref.provider && o in from.items
        && o.id == ref.model && (o.capability == Chat || o.capability == Embedding)
        && row == Sighting(from.observedAt, o.capability);
      assert w.horizon.None? || w.horizon.value <= row.at ==> from in w.snapshots;
    }
  }

  /** A runnable row of the table repeats the newest runnable observation. */
  lemma {:induction false} OwnRow(w: World, ref: ModelRef)
    requires Remembers(w) && ref in w.states && w.states[ref].capability.Runnable()
    ensures LastRunnable(w.archive, ref) == Some(Sighting(w.states[ref].lastSeenAt, w.states[ref].capability))
  {
    assert RowRepeats(Get(w.states, ref), LastSighting(w.archive, ref));
    RunnableRowIsLast(w.archive, ref);
  }

  lemma {:induction false} KnownRows(w: World, ref: ModelRef)
    requires Remembers(w) && TablesAreRecent(w)
    ensures forall row :: KnownRow(w.states, w.snapshots, ref, row) ==> ItemRow(w.archive, ref, row)
    ensures Retained(w, ref).Some? <==> exists row :: KnownRow(w.states, w.snapshots, ref, row)
    ensures Retained(w, ref).Some? ==> KnownRow(w.states, w.snapshots, ref, LastRunnable(w.archive, ref).value)
  {
    LastRunnableIsNewest(w.archive, ref);
    if ref in w.states && w.states[ref].capability.Runnable() {
      OwnRow(w, ref);
    }
    forall row | KnownRow(w.states, w.snapshots, ref, row)
      ensures ItemRow(w.archive, ref, row) && Retained(w, ref).Some?
    {
      RetainedRows(w, ref, row);
    }
    if Retained(w, ref).Some? {
      var last := LastRunnable(w.archive, ref).value;
      RetainedRows(w, ref, last);
      assert KnownRow(w.states, w.snapshots, ref, last);
    }
  }

  /** The query has exactly one possible answer: the retained part of the true history. */
  lemma {:induction false} AnswerIsRetained(s: Settings, ws: seq<World>, steps: seq<Step>, k: nat, ref: ModelRef,
                                            answer: Option<Capability>)
    requires IsRun(s, ws, steps) && k < |ws|
    ensures MayAnswer(ws[k].states, ws[k].snapshots, ref, answer) <==> answer == Retained(ws[k], ref)
  {
    var w := ws[k];
    AlwaysRemembers(s, ws, steps, k);
    RetentionIsExact(s, ws, steps, k);
    KnownRows(w, ref);
    LastRunnableIsNewest(w.archive, ref);
    if Retained(w, ref).Some? {
      NewestAnswers(w.states, w.snapshots, ref, LastRunnable(w.archive, ref).value, answer);
    }
  }

  /** A row that is strictly newer than every other known one is the answer. */
  lemma {:induction false} NewestAnswers(states: map<ModelRef, ModelState>, snapshots: seq<Snapshot>, ref: ModelRef,
                                         last: Sighting, answer: Option<Capability>)
    requires KnownRow(states, snapshots, ref, last)
    requires forall row :: KnownRow(states, snapshots, ref, row) ==> row.at <= last.at && (row.at == last.at ==> row == last)
    ensures MayAnswer(states, snapshots, ref, answer) <==> answer == Some(last.capability)
  {
    if answer.Some? && MayAnswer(states, snapshots, ref, answer) {
      var row :| KnownRow(states, snapshots, ref, row) && row.capability == answer.value
        && forall other :: KnownRow(states, snapshots, ref, other) ==> other.at <= row.at;
      assert row == last;
    }
  }

  /** Until something is pruned, the query tells the most recent runnable capability of the whole history. */
  lemma {:induction false} UnprunedMemoryIsHistory(s: Settings, ws: seq<World>, steps: seq<Step>, k: nat, ref: ModelRef,
                                                   answer: Option<Capability>)
    requires IsRun(s, ws, steps) && k < |ws|
    requires forall i :: 0 <= i < k ==> !steps[i].Prune?
    ensures var last := LastRunnable(ws[k].archive, ref);
            MayAnswer(ws[k].states, ws[k].snapshots, ref, answer) <==> answer == if last.Some? then Some(last.value.capability) else None
  {
    NeverPruned(s, ws, steps, k);
    AnswerIsRetained(s, ws, steps, k, ref, answer);
  }

  lemma {:induction false} OnlyPruneMovesHorizon(s: Settings, w: World, step: Step, v: World)
    requires Next(s, w, step, v) && !step.Prune?
    ensures v.horizon == w.horizon
  {
  }

  lemma {:induction false} NeverPruned(s: Settings, ws: seq<World>, steps: seq<Step>, k: nat)
    requires IsRun(s, ws, steps) && k < |ws|
    requires forall i :: 0 <= i < k ==> !steps[i].Prune?
    ensures ws[k].horizon == None
  {
    if k > 0 {
      NeverPruned(s, ws, steps, k - 1);
      assert Next(s, ws[k - 1], steps[k - 1], ws[k - 1 + 1]);
      OnlyPruneMovesHorizon(s, ws[k - 1], steps[k - 1], ws[k]);
    }
  }

  /** Under any pruning, a transient probe failure keeps the capability of a model whose row is runnable. */
  lemma {:induction false} TransientFailureKeepsRunnable(s: Settings, ws: seq<World>, steps: seq<Step>, k: nat,
                                                         ref: ModelRef, known: Option<Capability>,
                                                         chat: ProbeResult, embedding: ProbeResult)
    requires IsRun(s, ws, steps) && k < |ws|
    requires ref in ws[k].states && ws[k].states[ref].capability.Runnable()
    requires MayAnswer(ws[k].states, ws[k].snapshots, ref, known)
    requires !chat.ok && !(embedding.ok && embedding.dimensions.Some? && embedding.dimensions.value > 0)
    requires FailedForNow(chat) || FailedForNow(embedding)
    ensures Classify(ref.model, Detect(chat, embedding), known)
            == ObservedModel(ref.model, ws[k].states[ref].capability, false, "")
  {
    UnknownIff(chat, embedding);
    KeepsRunnable(s, ws, steps, k, ref, known, chat, embedding);
  }

  lemma {:induction false} UnknownIff(chat: ProbeResult, embedding: ProbeResult)
    ensures Detect(chat, embedding).capability == Unknown <==>
              && !chat.ok && !(embedding.ok && embedding.dimensions.Some? && embedding.dimensions.value > 0)
              && (FailedForNow(chat) || FailedForNow(embedding))
  {
    TransientMeans(chat);
    TransientMeans(embedding);
  }

  lemma {:induction false} KeepsRunnable(s: Settings, ws: seq<World>, steps: seq<Step>, k: nat,
                                         ref: ModelRef, known: Option<Capability>,
                                         chat: ProbeResult, embedding: ProbeResult)
    requires IsRun(s, ws, steps) && k < |ws|
    requires ref in ws[k].states && ws[k].states[ref].capability.Runnable()
    requires MayAnswer(ws[k].states, ws[k].snapshots, ref, known)
    requires Detect(chat, embedding).capability == Unknown
    ensures Classify(ref.model, Detect(chat, embedding), known)
            == ObservedModel(ref.model, ws[k].states[ref].capability, false, "")
  {
    AnswerIsRetained(s, ws, steps, k, ref, known);
    AlwaysRemembers(s, ws, steps, k);
    assert RowRepeats(Get(ws[k].states, ref), LastSighting(ws[k].archive, ref));
    RunnableRowIsLast(ws[k].archive, ref);
  }

  /** An inventory entry as detectModels makes it: probed with the remembered capability, or cancelled. */
  ghost predicate DetectedIn(w: World, provider: string, o: ObservedModel) {
    || o == Cancelled(o.id)
    || exists chat, embedding, known ::
         MayAnswer(w.states, w.snapshots, ModelRef(provider, o.id), known) && o == Classify(o.id, Detect(chat, embedding), known)
  }

  /** Detection only produces capabilities on which plan and table agree. */
  lemma {:induction false} DetectedIsClassified(w: World, provider: string, o: ObservedModel)
    requires DetectedIn(w, provider, o)
    ensures Classified(o) && !o.excluded
  {
  }

  /** So no refresh ever turns a runnable row into an unknown one. */
  lemma {:induction false} RefreshNeverForgets(s: Settings, ws: seq<World>, steps: seq<Step>, k: nat, ref: ModelRef)
    requires IsRun(s, ws, steps) && k < |steps|
    requires steps[k].Refresh?
    requires forall o :: o in steps[k].observed ==> DetectedIn(ws[k], steps[k].provider, o)
    requires ref in ws[k].states && ws[k].states[ref].capability.Runnable()
    ensures ref in ws[k + 1].states && ws[k + 1].states[ref].capability != Unknown
  {
    var w, step, v := ws[k], steps[k], ws[k + 1];
    assert Next(s, w, step, v);
    assert Get(v.states, ref) == EffectOn(TransitionOf(step), ref, Get(w.states, ref)).row;
    FindObservedSome(step.observed, ref.model);
    var seen := FindObserved(step.observed, ref.model);
    if ref.provider == step.provider && seen.Some? && seen.value != Cancelled(seen.value.id) {
      var chat, embedding, known :| MayAnswer(w.states, w.snapshots, ModelRef(step.provider, seen.value.id), known)
        && seen.value == Classify(seen.value.id, Detect(chat, embedding), known);
      if Detect(chat, embedding).capability == Unknown {
        KeepsRunnable(s, ws, steps, k, ref, known, chat, embedding);
      }
    }
  }
}
