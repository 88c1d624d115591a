/**
 * The in-memory model plan: the worker's own list of runnable models, edited by the
 * tasks instead of being read back from the database.
 */
module PlanCache {
  import opened Basics
  import opened Lifecycle

  datatype PlanItem = PlanItem(ref: ModelRef, capability: Capability, excluded: bool)

  /** buildModelPlan keeps a model unless it is excluded, `skip` or `unknown`. */
  predicate Planned(o: ObservedModel) {
    !o.excluded && o.capability != Skip && o.capability != Unknown
  }

  function BuildModelPlan(provider: string, observed: seq<ObservedModel>): seq<PlanItem> {
    if observed == [] then []
    else
      var o := observed[|observed| - 1];
      BuildModelPlan(provider, observed[..|observed| - 1])
        + (if Planned(o) then [PlanItem(ModelRef(provider, o.id), o.capability, o.excluded)] else [])
  }

  function WithoutProvider(plan: seq<PlanItem>, provider: string): seq<PlanItem> {
    if plan == [] then []
    else
      var item := plan[|plan| - 1];
      WithoutProvider(plan[..|plan| - 1], provider) + (if item.ref.provider != provider then [item] else [])
  }

  function WithoutModel(plan: seq<PlanItem>, ref: ModelRef): seq<PlanItem> {
    if plan == [] then []
    else
      var item := plan[|plan| - 1];
      WithoutModel(plan[..|plan| - 1], ref) + (if item.ref != ref then [item] else [])
  }

  /** reloadProviderModelPlan */
  function Reloaded(plan: seq<PlanItem>, provider: string, observed: seq<ObservedModel>): seq<PlanItem> {
    WithoutProvider(plan, provider) + BuildModelPlan(provider, observed)
  }

  /** All entries of the plan for one model. */
  function ItemsOf(plan: seq<PlanItem>, ref: ModelRef): seq<PlanItem> {
    if plan == [] then []
    else
      var item := plan[|plan| - 1];
      ItemsOf(plan[..|plan| - 1], ref) + (if item.ref == ref then [item] else [])
  }

  /** status = 'active' AND NOT excluded AND capability IN ('chat', 'embedding') */
  predicate RunnableRow(st: ModelState) {
    st.status == Active && !st.excluded && st.capability.Runnable()
  }

  /** The entries RunnableModels has for one model: one or none. */
  function RunnableItems(ref: ModelRef, row: Option<ModelState>): seq<PlanItem> {
    if row.Some? && RunnableRow(row.value) then [PlanItem(ref, row.value.capability, false)] else []
  }

  /** The plan holds each runnable model of the provider once, and nothing else of it. */
  ghost predicate AgreesFor(plan: seq<PlanItem>, states: map<ModelRef, ModelState>, provider: string) {
    forall ref: ModelRef :: ref.provider == provider ==> ItemsOf(plan, ref) == RunnableItems(ref, Get(states, ref))
  }

  ghost predicate Agrees(plan: seq<PlanItem>, states: map<ModelRef, ModelState>) {
    forall ref :: ItemsOf(plan, ref) == RunnableItems(ref, Get(states, ref))
  }

  lemma {:induction false} ItemsOfAppend(a: seq<PlanItem>, b: seq<PlanItem>, ref: ModelRef)
    ensures ItemsOf(a + b, ref) == ItemsOf(a, ref) + ItemsOf(b, ref)
  {
    if b == [] {
      assert a + b == a;
    } else {
      ItemsOfAppend(a, b[..|b| - 1], ref);
      assert (a + b)[..|a + b| - 1] == a + b[..|b| - 1];
    }
  }

  lemma {:induction false} ItemsWithoutProvider(plan: seq<PlanItem>, provider: string, ref: ModelRef)
    ensures ItemsOf(WithoutProvider(plan, provider), ref)
            == if ref.provider == provider then [] else ItemsOf(plan, ref)
  {
    if plan != [] {
      var init, item := plan[..|plan| - 1], plan[|plan| - 1];
      ItemsWithoutProvider(init, provider, ref);
      ItemsOfAppend(WithoutProvider(init, provider), if item.ref.provider != provider then [item] else [], ref);
      assert [item][..0] == [];
    }
  }

  lemma {:induction false} ItemsWithoutModel(plan: seq<PlanItem>, gone: ModelRef, ref: ModelRef)
    ensures ItemsOf(WithoutModel(plan, gone), ref) == if ref == gone then [] else ItemsOf(plan, ref)
  {
    if plan != [] {
      var init, item := plan[..|plan| - 1], plan[|plan| - 1];
      ItemsWithoutModel(init, gone, ref);
      ItemsOfAppend(WithoutModel(init, gone), if item.ref != gone then [item] else [], ref);
      assert [item][..0] == [];
    }
  }

  /** The entries buildModelPlan makes for one model. */
  function PlannedItems(ref: ModelRef, seen: Option<ObservedModel>): seq<PlanItem> {
    if seen.Some? && Planned(seen.value) then [PlanItem(ref, seen.value.capability, seen.value.excluded)] else []
  }

  lemma {:induction false} ItemsBuilt(provider: string, observed: seq<ObservedModel>, ref: ModelRef)
    requires DistinctIds(observed)
    ensures ItemsOf(BuildModelPlan(provider, observed), ref)
            == if ref.provider == provider then PlannedItems(ref, FindObserved(observed, ref.model)) else []
  {
    if observed != [] {
      var init, o := observed[..|observed| - 1], observed[|observed| - 1];
      ItemsBuilt(provider, init, ref);
      var item := PlanItem(ModelRef(provider, o.id), o.capability, o.excluded);
      ItemsOfAppend(BuildModelPlan(provider, init), if Planned(o) then [item] else [], ref);
      assert [item][..0] == [];
      FindObservedSome(init, o.id);
    }
  }

  /** Whether plan and table classify an observed model alike: any capability but an unheard-of one. */
  predicate Classified(o: ObservedModel) {
    o.capability.Other? ==> o.excluded
  }

  /**
   * A committed refresh makes the provider's plan agree, whatever the plan was before,
   * exactly when every observed model is classified.
   */
  lemma {:induction false} RefreshAgreesIff(plan: seq<PlanItem>, provider: string, observed: seq<ObservedModel>,
                                            now: Time, before: map<ModelRef, ModelState>,
                                            after: map<ModelRef, ModelState>, written: seq<ModelEvent>)
    requires DistinctIds(observed) && AllSound(before)
    requires Committed(Observation(provider, observed, now), before, after, written)
    ensures AgreesFor(Reloaded(plan, provider, observed), after, provider)
            <==> forall o :: o in observed ==> Classified(o)
  {
    var next := Reloaded(plan, provider, observed);
    forall ref: ModelRef | ref.provider == provider
      ensures ItemsOf(next, ref) == RunnableItems(ref, Get(after, ref)) <==>
              (FindObserved(observed, ref.model).Some? ==> Classified(FindObserved(observed, ref.model).value))
    {
      RefreshedItems(plan, provider, observed, now, before, after, written, ref);
    }
    if AgreesFor(next, after, provider) {
      forall o | o in observed ensures Classified(o) {
        var i :| 0 <= i < |observed| && observed[i] == o;
        FindObservedAt(observed, i);
        var ref := ModelRef(provider, o.id);
        assert ItemsOf(next, ref) == RunnableItems(ref, Get(after, ref));
      }
    }
    if forall o :: o in observed ==> Classified(o) {
      forall ref: ModelRef | ref.provider == provider
        ensures ItemsOf(next, ref) == RunnableItems(ref, Get(after, ref))
      {
        FindObservedSome(observed, ref.model);
      }
    }
  }

  lemma {:induction false} RefreshedItems(plan: seq<PlanItem>, provider: string, observed: seq<ObservedModel>,
                                          now: Time, before: map<ModelRef, ModelState>,
                                          after: map<ModelRef, ModelState>, written: seq<ModelEvent>, ref: ModelRef)
    requires DistinctIds(observed) && AllSound(before) && ref.provider == provider
    requires Committed(Observation(provider, observed, now), before, after, written)
    ensures ItemsOf(Reloaded(plan, provider, observed), ref) == RunnableItems(ref, Get(after, ref)) <==>
            (FindObserved(observed, ref.model).Some? ==> Classified(FindObserved(observed, ref.model).value))
  {
    ItemsOfAppend(WithoutProvider(plan, provider), BuildModelPlan(provider, observed), ref);
    ItemsWithoutProvider(plan, provider, ref);
    ItemsBuilt(provider, observed, ref);
    assert ItemsOf(Reloaded(plan, provider, observed), ref) == PlannedItems(ref, FindObserved(observed, ref.model));
    assert Get(after, ref) == EffectOn(Observation(provider, observed, now), ref, Get(before, ref)).row;
    assert Get(before, ref).Some? ==> Sound(before[ref]);
    PlannedIsRunnable(ref, Get(before, ref), provider, observed, now);
  }

  lemma {:induction false} PlannedIsRunnable(ref: ModelRef, row: Option<ModelState>, provider: string,
                                             observed: seq<ObservedModel>, now: Time)
    requires row.Some? ==> Sound(row.value)
    requires ref.provider == provider
    ensures var seen := FindObserved(observed, ref.model);
            PlannedItems(ref, seen) == RunnableItems(ref, EffectOn(Observation(provider, observed, now), ref, row).row)
            <==> (seen.Some? ==> Classified(seen.value))
  {
    var seen := FindObserved(observed, ref.model);
    if seen.Some? {
      var o := seen.value;
      var next := ObservedRow(ref, row, o, now).row.value;
      assert next.status == Active && next.capability == o.capability && next.excluded == o.excluded;
    }
  }

  /** A refresh of one provider leaves every other provider's plan alone. */
  lemma {:induction false} RefreshLocal(plan: seq<PlanItem>, provider: string, observed: seq<ObservedModel>, ref: ModelRef)
    requires DistinctIds(observed) && ref.provider != provider
    ensures ItemsOf(Reloaded(plan, provider, observed), ref) == ItemsOf(plan, ref)
  {
    ItemsOfAppend(WithoutProvider(plan, provider), BuildModelPlan(provider, observed), ref);
    ItemsWithoutProvider(plan, provider, ref);
    ItemsBuilt(provider, observed, ref);
  }

  /** Agreement survives a refresh of classified models. */
  lemma {:induction false} RefreshKeepsAgreement(plan: seq<PlanItem>, provider: string, observed: seq<ObservedModel>,
                                                 now: Time, before: map<ModelRef, ModelState>,
                                                 after: map<ModelRef, ModelState>, written: seq<ModelEvent>)
    requires DistinctIds(observed) && AllSound(before) && Agrees(plan, before)
    requires Committed(Observation(provider, observed, now), before, after, written)
    requires forall o :: o in observed ==> Classified(o)
    ensures Agrees(Reloaded(plan, provider, observed), after)
  {
    RefreshAgreesIff(plan, provider, observed, now, before, after, written);
    forall ref ensures ItemsOf(Reloaded(plan, provider, observed), ref) == RunnableItems(ref, Get(after, ref)) {
      if ref.provider != provider {
        RefreshLocal(plan, provider, observed, ref);
        assert Get(after, ref) == EffectOn(Observation(provider, observed, now), ref, Get(before, ref)).row;
      }
    }
  }

  /** Failing a whole provider empties its plan and its runnable models together, whatever the plan was. */
  lemma {:induction false} ProviderDownAgrees(plan: seq<PlanItem>, provider: string, now: Time, reason: string,
                                              before: map<ModelRef, ModelState>, after: map<ModelRef, ModelState>,
                                              written: seq<ModelEvent>)
    requires Committed(ProviderDeactivation(provider, now, reason), before, after, written)
    ensures AgreesFor(WithoutProvider(plan, provider), after, provider)
    ensures forall ref: ModelRef :: ref.provider == provider ==> RunnableItems(ref, Get(after, ref)) == []
    ensures Agrees(plan, before) ==> Agrees(WithoutProvider(plan, provider), after)
  {
    forall ref: ModelRef
      ensures ref.provider == provider ==> ItemsOf(WithoutProvider(plan, provider), ref) == []
                                           && RunnableItems(ref, Get(after, ref)) == []
      ensures ref.provider != provider ==> ItemsOf(WithoutProvider(plan, provider), ref) == ItemsOf(plan, ref)
                                           && Get(after, ref) == Get(before, ref)
    {
      ItemsWithoutProvider(plan, provider, ref);
      assert Get(after, ref) == EffectOn(ProviderDeactivation(provider, now, reason), ref, Get(before, ref)).row;
    }
  }

  /** Deactivating one model, or finding nothing to deactivate, matches dropping it from the plan. */
  lemma {:induction false} ModelGoneAgrees(plan: seq<PlanItem>, gone: ModelRef, now: Time, reason: string,
                                           before: map<ModelRef, ModelState>, after: map<ModelRef, ModelState>,
                                           written: seq<ModelEvent>)
    requires Agrees(plan, before)
    requires Committed(Deactivation(gone, now, reason), before, after, written)
    ensures Agrees(WithoutModel(plan, gone), after)
  {
    forall ref ensures ItemsOf(WithoutModel(plan, gone), ref) == RunnableItems(ref, Get(after, ref)) {
      assert ItemsOf(plan, ref) == RunnableItems(ref, Get(before, ref));
      ModelGoneItems(plan, gone, now, reason, Get(before, ref), ref);
      assert Get(after, ref) == EffectOn(Deactivation(gone, now, reason), ref, Get(before, ref)).row;
    }
  }

  lemma {:induction false} ModelGoneItems(plan: seq<PlanItem>, gone: ModelRef, now: Time, reason: string,
                                          row: Option<ModelState>, ref: ModelRef)
    requires ItemsOf(plan, ref) == RunnableItems(ref, row)
    ensures ItemsOf(WithoutModel(plan, gone), ref)
            == RunnableItems(ref, EffectOn(Deactivation(gone, now, reason), ref, row).row)
  {
    ItemsWithoutModel(plan, gone, ref);
    if ref == gone {
      GoneNotRunnable(gone, now, reason, row);
    }
  }

  lemma {:induction false} GoneNotRunnable(gone: ModelRef, now: Time, reason: string, row: Option<ModelState>)
    ensures RunnableItems(gone, EffectOn(Deactivation(gone, now, reason), gone, row).row) == []
  {
  }

  /** Listing one more model adds its items and no others. */
  lemma {:induction false} OneMoreItem(plan: seq<PlanItem>, ref: ModelRef, row: Option<ModelState>, other: ModelRef)
    ensures ItemsOf(plan + RunnableItems(ref, row), other)
            == ItemsOf(plan, other) + (if other == ref then RunnableItems(ref, row) else [])
  {
    var more := RunnableItems(ref, row);
    ItemsOfAppend(plan, more, other);
    assert more != [] ==> |more| == 1 && more[..0] == [];
  }

  /** Agreement in plain words: no duplicates, and membership is runnability. */
  lemma {:induction false} AgreesMeans(plan: seq<PlanItem>, states: map<ModelRef, ModelState>)
    requires Agrees(plan, states)
    ensures forall i, j :: 0 <= i < j < |plan| ==> plan[i].ref != plan[j].ref
    ensures forall item :: item in plan <==>
              && item.ref in states && states[item.ref].status == Active && !states[item.ref].excluded
              && (states[item.ref].capability == Chat || states[item.ref].capability == Embedding)
              && item == PlanItem(item.ref, states[item.ref].capability, false)
  {
    forall i, j | 0 <= i < j < |plan| ensures plan[i].ref != plan[j].ref {
      TwoItems(plan, i, j);
      assert ItemsOf(plan, plan[i].ref) == RunnableItems(plan[i].ref, Get(states, plan[i].ref));
    }
    forall item
      ensures item in plan <==> item.ref in states && RunnableRow(states[item.ref])
                                && item == PlanItem(item.ref, states[item.ref].capability, false)
    {
      ItemsOfContains(plan, item.ref);
      assert ItemsOf(plan, item.ref) == RunnableItems(item.ref, Get(states, item.ref));
    }
  }

  lemma {:induction false} WithoutProviderContains(plan: seq<PlanItem>, provider: string)
    ensures forall item :: item in WithoutProvider(plan, provider) <==> item in plan && item.ref.provider != provider
  {
    if plan != [] {
      WithoutProviderContains(plan[..|plan| - 1], provider);
      assert plan == plan[..|plan| - 1] + [plan[|plan| - 1]];
    }
  }

  lemma {:induction false} WithoutModelContains(plan: seq<PlanItem>, gone: ModelRef)
    ensures forall item :: item in WithoutModel(plan, gone) <==> item in plan && item.ref != gone
  {
    if plan != [] {
      WithoutModelContains(plan[..|plan| - 1], gone);
      assert plan == plan[..|plan| - 1] + [plan[|plan| - 1]];
    }
  }

  lemma {:induction false} TwoItems(plan: seq<PlanItem>, i: nat, j: nat)
    requires i < j < |plan|
    ensures plan[i].ref == plan[j].ref ==> |ItemsOf(plan, plan[i].ref)| >= 2
  {
    var ref := plan[i].ref;
    assert plan == plan[..j] + plan[j..];
    ItemsOfAppend(plan[..j], plan[j..], ref);
    ItemsOfContains(plan[..j], ref);
    ItemsOfContains(plan[j..], ref);
    assert plan[..j][i] in plan[..j] && plan[j..][0] in plan[j..];
  }

  lemma {:induction false} ItemsOfContains(plan: seq<PlanItem>, ref: ModelRef)
    ensures forall item :: item in ItemsOf(plan, ref) <==> item in plan && item.ref == ref
  {
    if plan != [] {
      ItemsOfContains(plan[..|plan| - 1], ref);
      assert plan == plan[..|plan| - 1] + [plan[|plan| - 1]];
    }
  }
}
