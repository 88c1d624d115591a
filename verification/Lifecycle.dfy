/**
 * The inventory lifecycle of one model, as the three write transactions of
 * internal/store/models.go decide it. Every transaction acts on each model row
 * independently, so its meaning is a function from one row to one row plus the
 * lifecycle events appended for that model.
 */
module Lifecycle {
  import opened Basics

  /** The capability column. Other stands for any text besides the four the detector produces. */
  datatype Capability = Chat | Embedding | Skip | Unknown | Other(name: string) {
    /** capability IN ('chat', 'embedding') */
    predicate Runnable() { Chat? || Embedding? }
  }

  datatype Status = Active | Inactive

  /** Primary key of model_states. */
  datatype ModelRef = ModelRef(provider: string, model: string)

  datatype ObservedModel = ObservedModel(id: string, capability: Capability, excluded: bool, skipReason: string)

  datatype ModelState = ModelState(
    capability: Capability,
    excluded: bool,
    status: Status,
    firstSeenAt: Time,
    lastSeenAt: Time,
    missingSince: Option<Time>,
    skipReason: string,
    lastProbeAt: Option<Time>
  )

  datatype EventType = Added | Returned | CapabilityChanged | TurnedInactive | Diagnostic(name: string)

  /** A row of model_events; missingFor is the absence carried by a `returned` event. */
  datatype ModelEvent = ModelEvent(
    ref: ModelRef,
    eventType: EventType,
    capability: Capability,
    observedAt: Time,
    changed: bool,
    missingFor: int
  )

  /** The three transactions that write model_states. */
  datatype Transition =
    | Observation(provider: string, observed: seq<ObservedModel>, now: Time)
    | Deactivation(ref: ModelRef, now: Time, reason: string)
    | ProviderDeactivation(provider: string, now: Time, reason: string)

  /** What one transaction does to one model: its new row and the events it appends. */
  datatype Effect = Effect(row: Option<ModelState>, events: seq<ModelEvent>)

  /** insertModelEvent stores "unknown" in place of an empty capability. */
  function NormalizedCapability(c: Capability): Capability {
    if c == Other("") then Unknown else c
  }

  function LifecycleEvent(ref: ModelRef, t: EventType, c: Capability, at: Time, missingFor: int): ModelEvent {
    ModelEvent(ref, t, NormalizedCapability(c), at, true, missingFor)
  }

  /** The observation of one model id in an inventory; ids are unique in a committed one. */
  function FindObserved(observed: seq<ObservedModel>, id: string): Option<ObservedModel> {
    if observed == [] then None
    else if observed[|observed| - 1].id == id then Some(observed[|observed| - 1])
    else FindObserved(observed[..|observed| - 1], id)
  }

  ghost predicate DistinctIds(observed: seq<ObservedModel>) {
    forall i, j :: 0 <= i < j < |observed| ==> observed[i].id != observed[j].id
  }

  /** The row written when `seen` is in the inventory. */
  function ObservedRow(ref: ModelRef, row: Option<ModelState>, seen: ObservedModel, now: Time): Effect {
    match row
    case None =>
      Effect(
        Some(ModelState(seen.capability, seen.excluded, Active, now, now, None, seen.skipReason, Some(now))),
        [LifecycleEvent(ref, Added, seen.capability, now, 0)])
    case Some(st) =>
      var refreshed := st.(capability := seen.capability, excluded := seen.excluded, status := Active,
                           lastSeenAt := now, skipReason := seen.skipReason, lastProbeAt := Some(now));
      if st.missingSince.Some? then
        Effect(
          Some(refreshed.(missingSince := None)),
          [LifecycleEvent(ref, Returned, seen.capability, now, now - st.missingSince.value)])
      else if st.capability != seen.capability || st.excluded != seen.excluded || st.skipReason != seen.skipReason then
        Effect(Some(refreshed), [LifecycleEvent(ref, CapabilityChanged, seen.capability, now, 0)])
      else
        Effect(Some(refreshed), [])
  }

  /** The row written when a known model of the provider is absent from the inventory. */
  function MissingRow(ref: ModelRef, st: ModelState, now: Time): Effect {
    if st.missingSince.Some? || st.status == Inactive then
      Effect(Some(st), [])
    else
      Effect(Some(st.(status := Inactive, missingSince := Some(now))),
             [LifecycleEvent(ref, TurnedInactive, st.capability, now, 0)])
  }

  const DEFAULT_REASON := "model is unavailable"

  /** Whether a probe or provider failure may deactivate the row. */
  predicate Deactivatable(st: ModelState) {
    st.status != Inactive && !st.excluded && st.capability != Skip
  }

  /** markModelStateInactive: missing_since keeps an earlier value if there is one. */
  function DeactivatedRow(ref: ModelRef, st: ModelState, now: Time, reason: string): Effect {
    var since := if st.missingSince.Some? then st.missingSince.value else now;
    Effect(
      Some(st.(status := Inactive, missingSince := Some(since),
               skipReason := if reason == "" then DEFAULT_REASON else reason, lastProbeAt := Some(now))),
      [LifecycleEvent(ref, TurnedInactive, st.capability, now, now - since)])
  }

  function EffectOn(t: Transition, ref: ModelRef, row: Option<ModelState>): Effect {
    match t
    case Observation(provider, observed, now) =>
      if ref.provider != provider then Effect(row, [])
      else (
        match FindObserved(observed, ref.model)
        case Some(seen) => ObservedRow(ref, row, seen, now)
        case None => if row.Some? then MissingRow(ref, row.value, now) else Effect(None, [])
      )
    case Deactivation(target, now, reason) =>
      if ref == target && row.Some? && Deactivatable(row.value)
      then DeactivatedRow(ref, row.value, now, reason) else Effect(row, [])
    case ProviderDeactivation(provider, now, reason) =>
      if ref.provider == provider && row.Some? && Deactivatable(row.value)
      then DeactivatedRow(ref, row.value, now, reason) else Effect(row, [])
  }

  /** The `changed` events of one model, oldest first. */
  function Changes(log: seq<ModelEvent>, ref: ModelRef): seq<ModelEvent> {
    if log == [] then []
    else
      var e := log[|log| - 1];
      Changes(log[..|log| - 1], ref) + (if e.changed && e.ref == ref then [e] else [])
  }

  lemma {:induction false} ChangesAppend(a: seq<ModelEvent>, b: seq<ModelEvent>, ref: ModelRef)
    ensures Changes(a + b, ref) == Changes(a, ref) + Changes(b, ref)
  {
    if b == [] {
      assert a + b == a;
    } else {
      ChangesAppend(a, b[..|b| - 1], ref);
      assert (a + b)[..|a + b| - 1] == a + b[..|b| - 1];
    }
  }

  lemma {:induction false} ChangesOwn(log: seq<ModelEvent>, ref: ModelRef)
    ensures forall e :: e in Changes(log, ref) <==> e in log && e.changed && e.ref == ref
  {
    if log != [] {
      ChangesOwn(log[..|log| - 1], ref);
      assert log == log[..|log| - 1] + [log[|log| - 1]];
    }
  }

  /**
   * A committed transaction: every row changes as EffectOn says, and the appended
   * events are, model by model, exactly the effect's events. The order of events of
   * different models inside one transaction is left open, as it is in the source.
   */
  ghost predicate Committed(t: Transition, before: map<ModelRef, ModelState>, after: map<ModelRef, ModelState>,
                            written: seq<ModelEvent>)
  {
    && (forall ref :: Get(after, ref) == EffectOn(t, ref, Get(before, ref)).row)
    && (forall ref :: Changes(written, ref) == EffectOn(t, ref, Get(before, ref)).events)
    && (forall e :: e in written ==> e.changed)
  }

  /** The lifecycle invariant of a row: inactive exactly while an absence is on record. */
  predicate Sound(st: ModelState) {
    (st.status == Inactive) == st.missingSince.Some?
  }

  ghost predicate AllSound(states: map<ModelRef, ModelState>) {
    forall ref :: ref in states ==> Sound(states[ref])
  }

  lemma {:induction false} SoundnessKept(t: Transition, before: map<ModelRef, ModelState>, after: map<ModelRef, ModelState>,
                      written: seq<ModelEvent>)
    requires AllSound(before) && Committed(t, before, after, written)
    ensures AllSound(after)
  {
    forall ref | ref in after ensures Sound(after[ref]) {
      assert Get(after, ref) == EffectOn(t, ref, Get(before, ref)).row;
      assert Get(before, ref).Some? ==> Sound(before[ref]);
    }
  }

  lemma {:induction false} FindObservedSome(observed: seq<ObservedModel>, id: string)
    ensures FindObserved(observed, id).Some? <==> exists o :: o in observed && o.id == id
    ensures FindObserved(observed, id).Some? ==>
              FindObserved(observed, id).value in observed && FindObserved(observed, id).value.id == id
  {
    if observed != [] {
      var init := observed[..|observed| - 1];
      FindObservedSome(init, id);
      assert observed == init + [observed[|observed| - 1]];
    }
  }

  lemma {:induction false} FindObservedAt(observed: seq<ObservedModel>, i: nat)
    requires i < |observed| && DistinctIds(observed)
    ensures FindObserved(observed, observed[i].id) == Some(observed[i])
  {
    FindObservedSome(observed, observed[i].id);
    assert observed[i] in observed;
  }

  /** After a committed observation the provider's active models are exactly the observed ids. */
  lemma {:induction false} ObservationIsExact(provider: string, observed: seq<ObservedModel>, now: Time,
                           before: map<ModelRef, ModelState>, after: map<ModelRef, ModelState>,
                           written: seq<ModelEvent>)
    requires AllSound(before) && Committed(Observation(provider, observed, now), before, after, written)
    ensures forall id :: (ModelRef(provider, id) in after && after[ModelRef(provider, id)].status == Active)
                         <==> exists o :: o in observed && o.id == id
    ensures forall ref: ModelRef :: ref.provider != provider ==> Get(after, ref) == Get(before, ref)
    ensures forall ref: ModelRef :: ref in before ==> ref in after && after[ref].firstSeenAt == before[ref].firstSeenAt
  {
    var t := Observation(provider, observed, now);
    forall id
      ensures (ModelRef(provider, id) in after && after[ModelRef(provider, id)].status == Active)
              <==> exists o :: o in observed && o.id == id
    {
      var ref := ModelRef(provider, id);
      FindObservedSome(observed, id);
      assert Get(after, ref) == EffectOn(t, ref, Get(before, ref)).row;
    }
    forall ref: ModelRef | ref.provider != provider ensures Get(after, ref) == Get(before, ref) {
      assert Get(after, ref) == EffectOn(t, ref, Get(before, ref)).row;
    }
    forall ref: ModelRef | ref in before
      ensures ref in after && after[ref].firstSeenAt == before[ref].firstSeenAt
    {
      assert Get(after, ref) == EffectOn(t, ref, Get(before, ref)).row;
    }
  }

  // ----- what the transactions leave behind, row by row and event by event -----

  /** The transaction wrote no event of the model. */
  ghost predicate Silent(written: seq<ModelEvent>, ref: ModelRef) {
    forall i :: 0 <= i < |written| ==> written[i].ref != ref
  }

  /** The transaction wrote this one event of the model and no other. */
  ghost predicate OnlyEvent(written: seq<ModelEvent>, ref: ModelRef, t: EventType, c: Capability, at: Time, missingFor: int) {
    exists i :: 0 <= i < |written|
      && written[i] == ModelEvent(ref, t, if c == Other("") then Unknown else c, at, true, missingFor)
      && forall j :: 0 <= j < |written| && j != i ==> written[j].ref != ref
  }

  ghost predicate Listed(observed: seq<ObservedModel>, id: string) {
    exists i :: 0 <= i < |observed| && observed[i].id == id
  }

  /**
   * A listed model's row repeats the observation. A new model is announced, an absent one has returned,
   * and a present one has changed if its capability, exclusion or skip reason did.
   */
  ghost predicate ListedOutcome(ref: ModelRef, was: Option<ModelState>, seen: ObservedModel, now: Time,
                                row: Option<ModelState>, written: seq<ModelEvent>)
  {
    && row == Some(ModelState(seen.capability, seen.excluded, Active,
                              if was.Some? then was.value.firstSeenAt else now, now, None, seen.skipReason, Some(now)))
    && if was.None? then OnlyEvent(written, ref, Added, seen.capability, now, 0)
       else if was.value.missingSince.Some? then
         OnlyEvent(written, ref, Returned, seen.capability, now, now - was.value.missingSince.value)
       else if was.value.capability != seen.capability || was.value.excluded != seen.excluded
               || was.value.skipReason != seen.skipReason then
         OnlyEvent(written, ref, CapabilityChanged, seen.capability, now, 0)
       else Silent(written, ref)
  }

  /** A known model that is not listed goes inactive, once per absence. */
  ghost predicate UnlistedOutcome(ref: ModelRef, was: Option<ModelState>, now: Time,
                                  row: Option<ModelState>, written: seq<ModelEvent>)
  {
    if was.Some? && was.value.status == Active && was.value.missingSince.None? then
      && row == Some(was.value.(status := Inactive, missingSince := Some(now)))
      && OnlyEvent(written, ref, TurnedInactive, was.value.capability, now, 0)
    else
      row == was && Silent(written, ref)
  }

  ghost predicate ObservationOutcome(provider: string, observed: seq<ObservedModel>, now: Time,
                                     before: map<ModelRef, ModelState>, after: map<ModelRef, ModelState>,
                                     written: seq<ModelEvent>)
  {
    && (forall i :: 0 <= i < |observed| ==>
          var ref := ModelRef(provider, observed[i].id);
          ListedOutcome(ref, Get(before, ref), observed[i], now, Get(after, ref), written))
    && (forall id :: !Listed(observed, id) ==>
          var ref := ModelRef(provider, id);
          UnlistedOutcome(ref, Get(before, ref), now, Get(after, ref), written))
    && (forall ref: ModelRef :: ref.provider != provider ==> Get(after, ref) == Get(before, ref) && Silent(written, ref))
  }

  /**
   * A targeted row that is active, not excluded and not skipped goes inactive with one event, keeping an
   * earlier missing_since; any other row keeps every field and draws no event.
   */
  ghost predicate DeactivationOutcome(ref: ModelRef, targeted: bool, was: Option<ModelState>, now: Time, reason: string,
                                      row: Option<ModelState>, written: seq<ModelEvent>)
  {
    if targeted && was.Some? && was.value.status == Active && !was.value.excluded && was.value.capability != Skip then
      var since := if was.value.missingSince.Some? then was.value.missingSince.value else now;
      && row == Some(was.value.(status := Inactive, missingSince := Some(since), lastProbeAt := Some(now),
                                skipReason := if reason == "" then "model is unavailable" else reason))
      && OnlyEvent(written, ref, TurnedInactive, was.value.capability, now, now - since)
    else
      row == was && Silent(written, ref)
  }

  lemma {:induction false} NoChangesSilent(written: seq<ModelEvent>, ref: ModelRef)
    requires Changes(written, ref) == [] && forall e :: e in written ==> e.changed
    ensures Silent(written, ref)
  {
    ChangesOwn(written, ref);
    forall i | 0 <= i < |written| ensures written[i].ref != ref {
      assert written[i] in written && written[i] !in Changes(written, ref);
    }
  }

  lemma {:induction false} OneChangeOnly(written: seq<ModelEvent>, ref: ModelRef, e: ModelEvent)
    requires Changes(written, ref) == [e] && forall x :: x in written ==> x.changed
    ensures exists i :: 0 <= i < |written| && written[i] == e && forall j :: 0 <= j < |written| && j != i ==> written[j].ref != ref
  {
    var init, last := written[..|written| - 1], written[|written| - 1];
    assert written == init + [last] && last in written;
    if last.ref == ref {
      assert Changes(init, ref) == [] by { assert Changes(init, ref) + [last] == [e]; }
      NoChangesSilent(init, ref);
      assert [e][0] == (Changes(init, ref) + [last])[0];
      assert written[|init|] == e;
    } else {
      assert Changes(init, ref) == [e];
      OneChangeOnly(init, ref, e);
      var i :| 0 <= i < |init| && init[i] == e && forall j :: 0 <= j < |init| && j != i ==> init[j].ref != ref;
      assert written[i] == e;
    }
  }

  /** Reading an effect's events off the transaction's. */
  lemma {:induction false} EffectShows(t: Transition, ref: ModelRef, before: map<ModelRef, ModelState>,
                                       after: map<ModelRef, ModelState>, written: seq<ModelEvent>)
    requires Committed(t, before, after, written)
    ensures var effect := EffectOn(t, ref, Get(before, ref));
            && Get(after, ref) == effect.row
            && (effect.events == [] ==> Silent(written, ref))
            && (|effect.events| == 1 ==>
                  exists i :: 0 <= i < |written| && written[i] == effect.events[0]
                              && forall j :: 0 <= j < |written| && j != i ==> written[j].ref != ref)
  {
    var effect := EffectOn(t, ref, Get(before, ref));
    assert Get(after, ref) == effect.row && Changes(written, ref) == effect.events;
    if effect.events == [] {
      NoChangesSilent(written, ref);
    } else if |effect.events| == 1 {
      assert effect.events == [effect.events[0]];
      OneChangeOnly(written, ref, effect.events[0]);
    }
  }

  lemma {:induction false} ObservationLeaves(provider: string, observed: seq<ObservedModel>, now: Time,
                                             before: map<ModelRef, ModelState>, after: map<ModelRef, ModelState>,
                                             written: seq<ModelEvent>)
    requires DistinctIds(observed) && Committed(Observation(provider, observed, now), before, after, written)
    ensures ObservationOutcome(provider, observed, now, before, after, written)
  {
    var t := Observation(provider, observed, now);
    forall i | 0 <= i < |observed|
      ensures var ref := ModelRef(provider, observed[i].id);
              ListedOutcome(ref, Get(before, ref), observed[i], now, Get(after, ref), written)
    {
      FindObservedAt(observed, i);
      EffectShows(t, ModelRef(provider, observed[i].id), before, after, written);
    }
    forall id | !Listed(observed, id)
      ensures var ref := ModelRef(provider, id); UnlistedOutcome(ref, Get(before, ref), now, Get(after, ref), written)
    {
      FindObservedSome(observed, id);
      EffectShows(t, ModelRef(provider, id), before, after, written);
    }
    forall ref: ModelRef | ref.provider != provider ensures Get(after, ref) == Get(before, ref) && Silent(written, ref) {
      EffectShows(t, ref, before, after, written);
    }
  }

  lemma {:induction false} DeactivationLeaves(target: ModelRef, now: Time, reason: string, before: map<ModelRef, ModelState>,
                                              after: map<ModelRef, ModelState>, written: seq<ModelEvent>)
    requires Committed(Deactivation(target, now, reason), before, after, written)
    ensures forall ref :: DeactivationOutcome(ref, ref == target, Get(before, ref), now, reason, Get(after, ref), written)
  {
    forall ref ensures DeactivationOutcome(ref, ref == target, Get(before, ref), now, reason, Get(after, ref), written) {
      EffectShows(Deactivation(target, now, reason), ref, before, after, written);
    }
  }

  lemma {:induction false} ProviderDeactivationLeaves(provider: string, now: Time, reason: string,
                                                      before: map<ModelRef, ModelState>, after: map<ModelRef, ModelState>,
                                                      written: seq<ModelEvent>)
    requires Committed(ProviderDeactivation(provider, now, reason), before, after, written)
    ensures forall ref: ModelRef ::
              DeactivationOutcome(ref, ref.provider == provider, Get(before, ref), now, reason, Get(after, ref), written)
  {
    forall ref: ModelRef
      ensures DeactivationOutcome(ref, ref.provider == provider, Get(before, ref), now, reason, Get(after, ref), written)
    {
      EffectShows(ProviderDeactivation(provider, now, reason), ref, before, after, written);
    }
  }
}
