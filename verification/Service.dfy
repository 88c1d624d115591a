/** The model tasks of the worker, over one store and one in-memory plan. */
module Service {
  import opened Basics
  import opened Lifecycle
  import opened Keys
  import opened Text
  import opened PlanCache
  import opened Monitor
  import opened Reports
  import opened Detection
  import opened CapabilityMemory
  import AlertLedger
  import FanOut
  import Inventory
  import Database

  /** The inventory a refresh stores when no probe is cancelled: each listed id, in order. */
  function Detections(ids: seq<string>, chat: string -> ProbeResult, embedding: string -> ProbeResult,
                      known: map<string, Capability>): seq<ObservedModel>
  {
    seq(|ids|, i requires 0 <= i < |ids| => Classify(ids[i], Detect(chat(ids[i]), embedding(ids[i])), Get(known, ids[i])))
  }

  /** The fan-out computes exactly that, in every schedule that returns without being cancelled. */
  lemma {:induction false} FanOutDetects(job: FanOut.Job, fs: seq<FanOut.Fan>, moves: seq<FanOut.Move>, k: nat,
                                         chat: string -> ProbeResult, embedding: string -> ProbeResult,
                                         known: map<string, Capability>)
    requires forall i: nat :: i < |job.ids| ==>
               job.probe(i) == Classify(job.ids[i], Detect(chat(job.ids[i]), embedding(job.ids[i])), Get(known, job.ids[i]))
    requires FanOut.Schedule(job, fs, moves) && k < |fs| && fs[k].returned && !fs[k].cancelled
    ensures |fs[k].slots| == |job.ids| && forall i :: 0 <= i < |job.ids| ==> fs[k].slots[i].Some?
    ensures FanOut.Result(fs[k]) == Detections(job.ids, chat, embedding, known)
    ensures forall i :: 0 <= i < |job.ids| ==>
              var id, o := job.ids[i], fs[k].slots[i].value;
              o.id == id && DetectedAs(chat(id), embedding(id), Get(known, id), o.capability, o.excluded, o.skipReason)
  {
    FanOut.ReturnedResult(job, fs, moves, k);
    assert FanOut.SequentialMap(job) == Detections(job.ids, chat, embedding, known);
    var found := FanOut.Result(fs[k]);
    forall i | 0 <= i < |job.ids|
      ensures var id, o := job.ids[i], fs[k].slots[i].value;
              o.id == id && DetectedAs(chat(id), embedding(id), Get(known, id), o.capability, o.excluded, o.skipReason)
    {
      var id := job.ids[i];
      assert found[i] == fs[k].slots[i].value;
      DetectionMeans(id, chat(id), embedding(id), Get(known, id));
    }
  }

  /** Each listed model's row holds what its probes and its remembered capability establish. */
  ghost predicate RowsDetected(provider: string, ids: seq<string>, chat: string -> ProbeResult,
                               embedding: string -> ProbeResult, known: map<string, Capability>,
                               states: map<ModelRef, ModelState>)
  {
    forall i :: 0 <= i < |ids| ==>
      var ref := ModelRef(provider, ids[i]);
      && ref in states && states[ref].status == Active
      && DetectedAs(chat(ids[i]), embedding(ids[i]), Get(known, ids[i]),
                    states[ref].capability, states[ref].excluded, states[ref].skipReason)
  }

  lemma {:induction false} RefreshRows(provider: string, ids: seq<string>, chat: string -> ProbeResult,
                                       embedding: string -> ProbeResult, known: map<string, Capability>, now: Time,
                                       before: map<ModelRef, ModelState>, after: map<ModelRef, ModelState>,
                                       written: seq<ModelEvent>)
    requires ObservationOutcome(provider, Detections(ids, chat, embedding, known), now, before, after, written)
    ensures RowsDetected(provider, ids, chat, embedding, known, after)
  {
    var observed := Detections(ids, chat, embedding, known);
    forall i | 0 <= i < |ids|
      ensures var ref := ModelRef(provider, ids[i]);
              && ref in after && after[ref].status == Active
              && DetectedAs(chat(ids[i]), embedding(ids[i]), Get(known, ids[i]),
                            after[ref].capability, after[ref].excluded, after[ref].skipReason)
    {
      var ref := ModelRef(provider, ids[i]);
      DetectionMeans(ids[i], chat(ids[i]), embedding(ids[i]), Get(known, ids[i]));
      assert observed[i].id == ids[i];
      assert ListedOutcome(ref, Get(before, ref), observed[i], now, Get(after, ref), written);
    }
  }

  /** What a refresh asks for, in terms of the listing. */
  lemma {:induction false} RefreshArrivals(provider: string, ids: seq<string>, observed: seq<ObservedModel>, now: Time,
                                           before: map<ModelRef, ModelState>, after: map<ModelRef, ModelState>,
                                           written: seq<ModelEvent>, s: Settings)
    requires |observed| == |ids| && forall i :: 0 <= i < |ids| ==> observed[i].id == ids[i]
    requires ObservationOutcome(provider, observed, now, before, after, written)
    ensures Arrivals(provider, ids, before, Requests(written, s), now, s.absenceAlertAfter)
  {
    forall id ensures Listed(observed, id) <==> id in ids {
      if Listed(observed, id) {
        var i :| 0 <= i < |observed| && observed[i].id == id;
        assert ids[i] in ids;
      }
      if id in ids {
        var i :| 0 <= i < |ids| && ids[i] == id;
        assert observed[i].id == id;
      }
    }
    forall r ensures r in Requests(written, s) <==>
                       && r.at == now && r.ref.provider == provider
                       && Reportable(r.kind, observed, r.ref.model, Get(before, r.ref), now, s.absenceAlertAfter)
    {
      RefreshRequests(provider, observed, now, before, after, written, s, r);
    }
  }

  lemma {:induction false} RequestsTail(e: ModelEvent, rest: seq<ModelEvent>, s: Settings)
    ensures Requests([e] + rest, s) == RequestsFor(e, s) + Requests(rest, s)
  {
    if rest == [] {
      assert [e] + rest == [e] && [e][..0] == [];
      assert Requests([], s) == [];
    } else {
      var init, last := rest[..|rest| - 1], rest[|rest| - 1];
      RequestsTail(e, init, s);
      assert ([e] + rest)[..|[e] + rest| - 1] == [e] + init;
    }
  }

  /** The requests still to attempt begin with those of the next event. */
  lemma {:induction false} NextRequests(events: seq<ModelEvent>, i: nat, s: Settings, pending: seq<AlertRequest>)
    requires i < |events| && pending == Requests(events[i..], s)
    ensures RequestsFor(events[i], s) == [] ==> pending == Requests(events[i + 1..], s)
    ensures RequestsFor(events[i], s) != [] ==>
              pending != [] && [pending[0]] == RequestsFor(events[i], s) && pending[1..] == Requests(events[i + 1..], s)
  {
    assert events[i..] == [events[i]] + events[i + 1..];
    RequestsTail(events[i], events[i + 1..], s);
  }

  /** Attempting the next event alert is a step of the worker. */
  lemma {:induction false} EventAlertTaken(s: Settings, start: World, before: World, r: AlertRequest,
                                           sentAt: Time, recordedAt: Time, outcome: Outcome)
    requires before.pending != [] && before.pending[0] == r && before.now < sentAt <= recordedAt
    requires Reaches(s, start, before) && Reaches(s, INITIAL, before)
    ensures var after := Attempt(before.(pending := before.pending[1..]), r, sentAt, recordedAt, outcome);
            Reaches(s, start, after) && Reaches(s, INITIAL, after)
  {
    var after := Attempt(before.(pending := before.pending[1..]), r, sentAt, recordedAt, outcome);
    var step := EventAlert(sentAt, recordedAt, outcome);
    assert Next(s, before, step, after);
    ReachesNext(s, start, before, step, after);
    ReachesNext(s, INITIAL, before, step, after);
  }

  lemma {:induction false} PruneTaken(s: Settings, start: World, now: Time)
    requires start.now < now && start.pending == [] && s.history > 0 && Reaches(s, INITIAL, start)
    ensures var after := Pruned(start, now - s.history).(now := now);
            Next(s, start, Prune(now), after) && Reaches(s, start, after) && Reaches(s, INITIAL, after)
  {
    var after := Pruned(start, now - s.history).(now := now);
    ReachesItself(s, start);
    ReachesNext(s, start, start, Prune(now), after);
    ReachesNext(s, INITIAL, start, Prune(now), after);
  }

  lemma {:induction false} RefreshTaken(s: Settings, start: World, provider: string, observed: seq<ObservedModel>, now: Time,
                                        written: seq<ModelEvent>, after: World)
    requires start.now < now && start.pending == [] && Reaches(s, INITIAL, start)
    requires Slug(provider) && DistinctIds(observed) && forall o :: o in observed ==> Classified(o)
    requires Committed(Observation(provider, observed, now), start.states, after.states, written)
    requires after == World(now, after.states, start.snapshots + [Snapshot(provider, now, observed)], start.events + written,
                            start.alerts, Reloaded(start.plan, provider, observed), Requests(written, s),
                            start.journal + written, start.archive + [Snapshot(provider, now, observed)],
                            start.horizon, start.deliveries)
    ensures Reaches(s, start, after) && Reaches(s, INITIAL, after)
  {
    var step := Refresh(provider, observed, now, written);
    assert Next(s, start, step, after);
    ReachesItself(s, start);
    ReachesNext(s, start, start, step, after);
    ReachesNext(s, INITIAL, start, step, after);
  }

  lemma {:induction false} HeadMoves(asked: seq<AlertRequest>, pending: seq<AlertRequest>, r: AlertRequest)
    requires pending != [] && pending[0] == r
    ensures asked + pending == asked + [r] + pending[1..]
  {
    assert pending == [r] + pending[1..];
  }

  /** One chat prompt of the configuration; blank ones are skipped. */
  datatype Prompt = Prompt(id: string, text: string)

  class ModelService {
    const settings: Settings
    const store: Database.Store
    var modelPlan: seq<PlanItem>
    var clock: Time    // the last reading of the clock

    // history of the run
    ghost var stamp: Time
    ghost var pending: seq<AlertRequest>
    ghost var journal: seq<ModelEvent>
    ghost var archive: seq<Snapshot>
    ghost var horizon: Option<Time>
    ghost var deliveries: seq<Delivery>

    ghost function State(): World
      reads this, store
    {
      World(stamp, store.states, store.snapshots, store.events, store.alerts, modelPlan, pending,
            journal, archive, horizon, deliveries)
    }

    /** Between tasks: a reachable world with no event alert left to attempt. */
    ghost predicate Idle()
      reads this, store
    {
      stamp <= clock && pending == [] && Reaches(settings, INITIAL, State())
    }

    constructor (settings: Settings, store: Database.Store)
      requires store.states == map[] && store.snapshots == [] && store.events == [] && store.alerts == map[]
      ensures this.settings == settings && this.store == store
      ensures State() == INITIAL && Idle()
    {
      this.settings, this.store := settings, store;
      modelPlan, clock, stamp := [], 0, 0;
      pending, journal, archive, horizon, deliveries := [], [], [], None, [];
      new;
      ReachesItself(settings, INITIAL);
    }

    /** time.Now(): later than every reading before it. */
    method Now() returns (t: Time)
      modifies this`clock
      ensures t > old(clock) && clock == t
    {
      t :| t > clock;
      clock := t;
    }

    /** notifier.Send: the mail server may accept or refuse, with any text. */
    method Send(r: AlertRequest, at: Time) returns (outcome: Outcome)
      modifies this`deliveries
      ensures deliveries == old(deliveries) + (if outcome.Sent? then [Delivery(r, at)] else [])
    {
      var accepted: bool := *;
      var text: string := *;
      outcome := if accepted then Sent else Failed(text);
      deliveries := deliveries + (if accepted then [Delivery(r, at)] else []);
    }

    /** Sends one model alert unless its key already has a recorded delivery. */
    method SendModelAlert(r: AlertRequest) returns (ghost sentAt: Time, ghost recordedAt: Time, ghost outcome: Outcome)
      requires stamp <= clock
      modifies this`clock, this`stamp, this`journal, this`deliveries, store`events, store`alerts
      ensures old(stamp) < sentAt <= recordedAt && old(clock) < sentAt && stamp <= clock && old(clock) <= clock
      ensures State() == Attempt(old(State()), r, sentAt, recordedAt, outcome)
      ensures var key := Spelled(PrefixOf(r.kind), r.ref, r.at);
              if key in old(store.alerts) && old(store.alerts)[key].error == "" then State() == old(State())
              else
                var error := if outcome.Sent? then "" else outcome.error;
                var note := ModelEvent(r.ref, Diagnostic(if outcome.Sent? then "alert_sent" else "alert_failed"),
                                       Unknown, recordedAt, false, 0);
                && store.alerts == old(store.alerts)[key := AlertRow(r.kind, r.ref, sentAt, error)]
                && deliveries == old(deliveries) + (if outcome.Sent? then [Delivery(r, sentAt)] else [])
                && store.events == old(store.events) + [note] && journal == old(journal) + [note]
    {
      KeySpelled(r);
      var key := AlertKeyText(KeyPrefix(r.kind), r.ref.provider, r.ref.model, Unix(r.at));
      var delivered := store.EmailAlertExists(key);
      if delivered {
        sentAt, recordedAt, outcome := clock + 1, clock + 1, Sent;
        return;
      }
      var at := Now();
      var result := Send(r, at);
      store.RecordEmailAlert(key, AlertRow(r.kind, r.ref, at, ErrorText(result)));
      var noted := Now();
      var note := AlertNote(r, noted, result);
      store.RecordModelEvent(note);
      journal, stamp := journal + [note], noted;
      sentAt, recordedAt, outcome := at, noted, result;
    }

    /** Alerts for every model inactive for at least the threshold: each is delivered on record or attempted now. */
    method SendInactiveModelAlerts(now: Time)
      requires Idle() && now <= clock
      modifies this`clock, this`stamp, this`journal, this`deliveries, store`events, store`alerts
      ensures Idle() && Reaches(settings, old(State()), State()) && old(clock) <= clock
      ensures modelPlan == old(modelPlan) && store.states == old(store.states)
      ensures AbsencesReported(old(store.alerts), store.alerts, store.states, now, settings.absenceAlertAfter, old(clock))
    {
      var due := store.InactiveModelsForAlert(settings.absenceAlertAfter, now);
      ghost var start, since := State(), clock;
      ghost var asked := AbsenceRequests(store.states, due);
      ReachesItself(settings, start);
      for i := 0 to |due|
        invariant Alerting(start, asked[..i], since) && now <= clock
      {
        assert due[i] in due && asked[..i + 1] == asked[..i] + [asked[i]];
        SendInactiveAlert(due[i], now, start, asked[..i], since);
      }
      assert asked[..|due|] == asked;
      ReachesTransitive(settings, INITIAL, start, State());
      AbsencesMean(start.alerts, store.alerts, store.states, due, now, settings.absenceAlertAfter, since);
    }

    /** While alerts are attempted since `start`: only the ledger and the log move, for what was asked. */
    ghost predicate Alerting(start: World, asked: seq<AlertRequest>, since: Time)
      reads this, store
    {
      && Reaches(settings, start, State())
      && pending == [] && stamp <= clock && since <= clock
      && store.states == start.states && modelPlan == start.plan
      && Attempted(start.alerts, store.alerts, asked, since)
    }

    /** One of the inactive alerts. */
    method SendInactiveAlert(ref: ModelRef, now: Time, ghost start: World, ghost asked: seq<AlertRequest>, ghost since: Time)
      requires Alerting(start, asked, since) && now <= clock
      requires DueForAlert(Get(store.states, ref), now, settings.absenceAlertAfter)
      modifies this`clock, this`stamp, this`journal, this`deliveries, store`events, store`alerts
      ensures Alerting(start, asked + [AbsenceRequest(store.states, ref)], since) && old(clock) <= clock
    {
      ghost var before := State();
      var r := AlertRequest(WentInactive, ref, store.states[ref].missingSince.value);
      var sentAt, recordedAt, outcome := SendModelAlert(r);
      AttemptedMore(start.alerts, before, asked, r, sentAt, recordedAt, outcome, since);
      ghost var step := InactiveAlert(ref, now, sentAt, recordedAt, outcome);
      assert Next(settings, before, step, State());
      ReachesNext(settings, start, before, step, State());
    }

    /** A task step was taken: the service stays on the run. */
    ghost method Took(step: Step, before: World)
      requires Reaches(settings, INITIAL, before) && Next(settings, before, step, State())
      ensures Reaches(settings, INITIAL, State()) && Reaches(settings, before, State())
    {
      ReachesItself(settings, before);
      ReachesNext(settings, before, before, step, State());
      ReachesNext(settings, INITIAL, before, step, State());
    }

    /** Marks the provider's models inactive and empties its plan, together or not at all. */
    method MarkAllModelsInactive(provider: string, now: Time, reason: string, databaseUp: bool)
        returns (ok: bool, ghost written: seq<ModelEvent>)
      requires Idle() && stamp < now <= clock
      modifies this`stamp, this`modelPlan, this`journal, store`states, store`events
      ensures ok == databaseUp
      ensures Idle() && Reaches(settings, old(State()), State())
      ensures !ok ==> State() == old(State()) && written == []
      ensures ok ==> Next(settings, old(State()), ProviderDown(provider, now, reason, written), State())
      ensures ok ==> ProviderFailed(provider, reason, old(store.states), store.states, old(modelPlan), modelPlan, now, written)
      ensures ok ==> journal == old(journal) + written
    {
      ghost var before := State();
      ReachesItself(settings, before);
      var result := store.MarkAllModelsInactive(provider, now, reason, databaseUp);
      if result.Err? {
        return false, [];
      }
      written := result.value;
      modelPlan := WithoutProvider(modelPlan, provider);
      journal, stamp := journal + result.value, now;
      Took(ProviderDown(provider, now, reason, result.value), before);
      WithoutProviderContains(before.plan, provider);
      ok := true;
    }

    /** Marks one model inactive and drops it from the plan, together or not at all. */
    method MarkModelInactive(ref: ModelRef, now: Time, reason: string, databaseUp: bool)
        returns (ok: bool, ghost written: seq<ModelEvent>)
      requires Idle() && stamp < now <= clock
      modifies this`stamp, this`modelPlan, this`journal, store`states, store`events
      ensures ok == databaseUp
      ensures Idle() && Reaches(settings, old(State()), State())
      ensures !ok ==> State() == old(State()) && written == []
      ensures ok ==> Next(settings, old(State()), ModelGone(ref, now, reason, written), State())
      ensures ok ==> ModelFailed(ref, reason, old(store.states), store.states, old(modelPlan), modelPlan, now, written)
      ensures ok ==> journal == old(journal) + written
    {
      ghost var before := State();
      ReachesItself(settings, before);
      var result := store.MarkModelInactive(ref, now, reason, databaseUp);
      if result.Err? {
        return false, [];
      }
      written := if result.value.Some? then [result.value.value] else [];
      modelPlan := WithoutModel(modelPlan, ref);
      journal, stamp := journal + written, now;
      Took(ModelGone(ref, now, reason, written), before);
      WithoutModelContains(before.plan, ref);
      ok := true;
    }

    /**
     * One provider's inventory refresh: a failed listing takes the provider down, a rejected
     * observation changes nothing, a stored one reloads the plan and attempts its alerts.
     */
    method RefreshProviderModels(provider: string, listing: Result<seq<string>>, chat: string -> ProbeResult,
                                 embedding: string -> ProbeResult, memoryUp: bool, databaseUp: bool)
        returns (ok: bool, ghost at: Time, ghost known: map<string, Capability>, ghost written: seq<ModelEvent>)
      requires Idle() && Slug(provider)
      modifies this, store
      ensures Idle() && Reaches(settings, old(State()), State()) && old(clock) < at
      ensures ok <==> listing.Ok? && databaseUp && Distinct(listing.value)
      ensures listing.Ok? ==> forall id ::
                if memoryUp then MayAnswer(old(store.states), old(store.snapshots), ModelRef(provider, id), Get(known, id))
                else id !in known
      ensures ok ==> ActiveExactly(store.states, provider, listing.value)
      ensures ok ==> RowsDetected(provider, listing.value, chat, embedding, known, store.states)
      ensures ok ==> exists observed: seq<ObservedModel> ::
                && |observed| == |listing.value| && (forall i :: 0 <= i < |observed| ==> observed[i].id == listing.value[i])
                && ObservationOutcome(provider, observed, at, old(store.states), store.states, written)
      ensures ok ==> RefreshReported(old(store.alerts), store.alerts, provider, listing.value, old(store.states),
                                     store.states, at, settings.absenceAlertAfter, old(clock))
      ensures !ok && (listing.Ok? || !databaseUp) ==>
                store.states == old(store.states) && modelPlan == old(modelPlan) && store.alerts == old(store.alerts)
      ensures listing.Err? && databaseUp ==>
                ProviderFailed(provider, "model inventory request failed: " + listing.error, old(store.states), store.states,
                               old(modelPlan), modelPlan, at, written)
                && AbsencesReported(old(store.alerts), store.alerts, store.states, at, settings.absenceAlertAfter, old(clock))
    {
      ghost var start, since := State(), clock;
      if listing.Err? {
        at, written := FailListing(provider, listing.error, databaseUp);
        return false, at, map[], written;
      }
      var remembered: map<string, Capability> := map[];
      if memoryUp {
        remembered := store.LastRunnableCapabilities(provider);
      }
      known := remembered;
      var observed := Detections(listing.value, chat, embedding, remembered);
      DetectionsListIds(listing.value, chat, embedding, remembered);
      ok, at, written := ProcessDetected(provider, listing.value, observed, databaseUp);
      if ok {
        RefreshRows(provider, listing.value, chat, embedding, known, at, start.states, store.states, written);
      }
    }

    /** Stores what was detected, reloads the plan and attempts the alerts; a rejected observation changes nothing. */
    method ProcessDetected(provider: string, ghost ids: seq<string>, observed: seq<ObservedModel>, databaseUp: bool)
        returns (ok: bool, ghost at: Time, ghost written: seq<ModelEvent>)
      requires Idle() && Slug(provider) && forall o :: o in observed ==> Classified(o)
      requires |observed| == |ids| && forall i :: 0 <= i < |ids| ==> observed[i].id == ids[i]
      modifies this, store
      ensures Idle() && Reaches(settings, old(State()), State()) && old(clock) < at
      ensures ok <==> databaseUp && DistinctIds(observed)
      ensures ok ==> ObservationOutcome(provider, observed, at, old(store.states), store.states, written)
      ensures ok ==> ActiveExactly(store.states, provider, ids)
      ensures ok ==> RefreshReported(old(store.alerts), store.alerts, provider, ids, old(store.states), store.states, at,
                                     settings.absenceAlertAfter, old(clock))
      ensures !ok ==> store.states == old(store.states) && modelPlan == old(modelPlan) && store.alerts == old(store.alerts)
    {
      ghost var start, since := State(), clock;
      var now := Now();
      at, written := now, [];
      var result := StoreInventory(provider, observed, now, databaseUp);
      if result.Err? {
        return false, at, written;
      }
      written := result.value;
      ActiveAreListed(provider, ids, observed, now, start.states, store.states, written);
      RefreshArrivals(provider, ids, observed, now, start.states, store.states, written, settings);
      ghost var stored, middle := State(), clock;
      AttemptEventAlerts(result.value);
      ghost var alerted, later := State(), clock;
      SendInactiveModelAlerts(now);
      ReachesTransitive(settings, start, stored, alerted);
      ReachesTransitive(settings, start, alerted, State());
      RefreshMeans(start.alerts, alerted.alerts, store.alerts, provider, ids, start.states, store.states,
                   Requests(written, settings), now, settings.absenceAlertAfter, middle, since, later);
      ok := true;
    }

    /** The inventory request failed: the provider goes down and long absences are reported. */
    method FailListing(provider: string, error: string, databaseUp: bool)
        returns (ghost at: Time, ghost written: seq<ModelEvent>)
      requires Idle()
      modifies this`clock, this`stamp, this`modelPlan, this`journal, this`deliveries, store`states, store`events, store`alerts
      ensures Idle() && Reaches(settings, old(State()), State()) && old(clock) < at
      ensures !databaseUp ==>
                store.states == old(store.states) && modelPlan == old(modelPlan) && store.alerts == old(store.alerts)
      ensures databaseUp ==>
                ProviderFailed(provider, "model inventory request failed: " + error, old(store.states), store.states,
                               old(modelPlan), modelPlan, at, written)
                && AbsencesReported(old(store.alerts), store.alerts, store.states, at, settings.absenceAlertAfter, old(clock))
    {
      ghost var start := State();
      var failedAt := Now();
      at := failedAt;
      var marked;
      marked, written := MarkAllModelsInactive(provider, failedAt, "model inventory request failed: " + error, databaseUp);
      if marked {
        ghost var middle := State();
        SendInactiveModelAlerts(failedAt);
        ReachesTransitive(settings, start, middle, State());
      }
    }

    /** Stores an observation and reloads the provider's plan, or leaves both as they were. */
    method StoreInventory(provider: string, observed: seq<ObservedModel>, now: Time, databaseUp: bool)
        returns (r: Result<seq<ModelEvent>>)
      requires Idle() && Slug(provider) && stamp < now <= clock
      requires forall o :: o in observed ==> Classified(o)
      modifies this`modelPlan, this`journal, this`archive, this`stamp, this`pending, store
      ensures stamp <= clock && Reaches(settings, INITIAL, State()) && Reaches(settings, old(State()), State())
      ensures r.Ok? <==> databaseUp && DistinctIds(observed)
      ensures clock == old(clock) && store.alerts == old(store.alerts)
      ensures r.Err? ==> pending == [] && store.states == old(store.states) && modelPlan == old(modelPlan)
      ensures r.Ok? ==> pending == Requests(r.value, settings) && AllSound(old(store.states))
      ensures r.Ok? ==> Committed(Observation(provider, observed, now), old(store.states), store.states, r.value)
      ensures r.Ok? ==> ObservationOutcome(provider, observed, now, old(store.states), store.states, r.value)
      ensures r.Ok? ==> store.snapshots == old(store.snapshots) + [Snapshot(provider, now, observed)]
    {
      ghost var start := State();
      ReachableIsSound(settings, start);
      r := store.ProcessModelObservation(provider, observed, now, databaseUp);
      stamp := now;
      if r.Err? {
        Took(Aborted(now), start);
        return;
      }
      modelPlan := Reloaded(modelPlan, provider, observed);
      journal, archive := journal + r.value, archive + [Snapshot(provider, now, observed)];
      pending := Requests(r.value, settings);
      RefreshTaken(settings, start, provider, observed, now, r.value, State());
    }

    /** First-seen and returned alerts for the events of a refresh, in order. */
    method AttemptEventAlerts(events: seq<ModelEvent>)
      requires stamp <= clock && pending == Requests(events, settings) && Reaches(settings, INITIAL, State())
      modifies this`pending, this`clock, this`stamp, this`journal, this`deliveries, store`events, store`alerts
      ensures Idle() && Reaches(settings, old(State()), State())
      ensures old(clock) <= clock && store.states == old(store.states) && modelPlan == old(modelPlan)
      ensures Attempted(old(store.alerts), store.alerts, Requests(events, settings), old(clock))
    {
      ghost var start, since := State(), clock;
      ghost var asked: seq<AlertRequest> := [];
      ReachesItself(settings, start);
      assert events[0..] == events && [] + pending == pending;
      for i := 0 to |events|
        invariant pending == Requests(events[i..], settings) && asked + pending == Requests(events, settings)
        invariant Announcing(start, asked, since)
      {
        var e := events[i];
        NextRequests(events, i, settings, pending);
        if e.eventType == Added {
          AttemptPending(AlertRequest(FirstSeen, e.ref, e.observedAt), start, asked, since);
          asked := asked + [AlertRequest(FirstSeen, e.ref, e.observedAt)];
        } else if e.eventType == Returned && e.missingFor >= settings.absenceAlertAfter {
          AttemptPending(AlertRequest(CameBack, e.ref, e.observedAt), start, asked, since);
          asked := asked + [AlertRequest(CameBack, e.ref, e.observedAt)];
        }
      }
      assert events[|events|..] == [] && asked + [] == asked;
    }

    /** While the event alerts since `start` are attempted. */
    ghost predicate Announcing(start: World, asked: seq<AlertRequest>, since: Time)
      reads this, store
    {
      && Reaches(settings, start, State()) && Reaches(settings, INITIAL, State())
      && stamp <= clock && since <= clock
      && store.states == start.states && modelPlan == start.plan
      && Attempted(start.alerts, store.alerts, asked, since)
    }

    /** Attempts the event alert that is next in line. */
    method AttemptPending(r: AlertRequest, ghost start: World, ghost asked: seq<AlertRequest>, ghost since: Time)
      requires pending != [] && pending[0] == r && Announcing(start, asked, since)
      modifies this`pending, this`clock, this`stamp, this`journal, this`deliveries, store`events, store`alerts
      ensures pending == old(pending)[1..] && Announcing(start, asked + [r], since)
      ensures asked + old(pending) == asked + [r] + pending
    {
      ghost var before := State();
      pending := pending[1..];
      ghost var asking := State();
      var sentAt, recordedAt, outcome := SendModelAlert(r);
      AttemptedMore(start.alerts, asking, asked, r, sentAt, recordedAt, outcome, since);
      EventAlertTaken(settings, start, before, r, sentAt, recordedAt, outcome);
      HeadMoves(asked, before.pending, r);
    }

    /**
     * The HTTP check of one provider. `previous` is its last recorded outcome; a failed check takes the
     * provider down once it is on record, and a healthy one after a failure asks for recovery.
     */
    method HttpCheck(provider: string, previous: Option<bool>, healthy: bool, failure: string, recorded: bool, databaseUp: bool)
        returns (ok: bool, recover: bool, ghost at: Time, ghost written: seq<ModelEvent>)
      requires Idle()
      modifies this`clock, this`stamp, this`modelPlan, this`journal, store`states, store`events
      ensures Idle() && Reaches(settings, old(State()), State()) && old(clock) < at
      ensures ok <==> recorded && (healthy || databaseUp)
      ensures !recorded || healthy || !databaseUp ==> State() == old(State())
      ensures recorded && !healthy && databaseUp ==>
                ProviderFailed(provider, "provider HTTP check failed: " + failure, old(store.states), store.states,
                               old(modelPlan), modelPlan, at, written)
      ensures recover <==> recorded && healthy && previous == Some(false)
    {
      ghost var start := State();
      ReachesItself(settings, start);
      var checkedAt := Now();
      at, written := checkedAt, [];
      if !recorded {
        return false, false, at, written;
      }
      ok := true;
      if !healthy {
        ok, written := MarkAllModelsInactive(provider, checkedAt, "provider HTTP check failed: " + failure, databaseUp);
      }
      recover := healthy && previous.Some? && !previous.value;
    }

    /**
     * Scheduled chat probes of one model, stopping at the first answer that says the model is gone:
     * `stop` is the position of that prompt, or the end of the list.
     */
    method RunChatTests(ref: ModelRef, prompts: seq<Prompt>, answer: Prompt -> ProbeResult, databaseUp: bool)
        returns (ran: bool, ghost stop: nat, ghost at: Time, ghost notes: seq<ModelEvent>, ghost written: seq<ModelEvent>)
      requires Idle()
      modifies this`clock, this`stamp, this`modelPlan, this`journal, store`states, store`events
      ensures Idle() && Reaches(settings, old(State()), State())
      ensures ran <==> exists p :: p in prompts && p.id != "" && p.text != ""
      ensures stop <= |prompts| && forall j :: 0 <= j < stop ==> !Condemns(prompts[j], answer(prompts[j]))
      ensures stop < |prompts| ==> Condemns(prompts[stop], answer(prompts[stop]))
      ensures Probed(ref, databaseUp && stop < |prompts|, old(store.states), store.states, old(modelPlan), modelPlan, at,
                     if stop < |prompts| then "chat probe reported model unavailable: " + answer(prompts[stop]).summary else "",
                     written)
      ensures forall item :: item in modelPlan <==>
                && item in old(modelPlan)
                && !(item.ref == ref && databaseUp
                     && exists p :: p in prompts && p.id != "" && p.text != "" && !answer(p).ok
                                    && (answer(p).statusCode in {404, 410}
                                        || (answer(p).statusCode in {400, 422, 503} && SaysGone(answer(p).error))))
      ensures journal == old(journal) + notes + written
      ensures forall i :: 0 <= i < |notes| ==>
                notes[i] == ModelEvent(ref, Diagnostic(if ran then "scheduled_run" else "skipped"), Chat,
                                       notes[i].observedAt, false, 0)
      ensures |notes| == if ran then Runs(prompts, stop) else 1
    {
      ghost var start := State();
      ReachesItself(settings, start);
      ran, at, notes, written := false, clock, [], [];
      var gone := false;
      var i := 0;
      assert start.journal + [] + [] == start.journal;
      while i < |prompts| && !gone
        invariant Looping(start, prompts, answer, i, ran, gone, ref, databaseUp, at, notes, written)
      {
        ran, gone, at, notes, written := RunChatPrompt(ref, prompts, answer, i, ran, databaseUp, start, at, notes);
        i := i + 1;
      }
      stop := if gone then i - 1 else i;
      LoopEnds(prompts, answer, i, ran, gone, ref, notes, databaseUp, start, State(), at, written);
      if !ran {
        var skippedAt := Now();
        ghost var note := RecordNote(ref, "skipped", Chat, skippedAt, start);
        assert start.journal + [] + [] + [note] == start.journal + [note] + [];
        notes := [note];
      }
    }

    /** While the chat prompts run: the model is condemned by the last one or by none. */
    ghost predicate Looping(start: World, prompts: seq<Prompt>, answer: Prompt -> ProbeResult, i: nat, ran: bool, gone: bool,
                            ref: ModelRef, databaseUp: bool, at: Time, notes: seq<ModelEvent>, written: seq<ModelEvent>)
      reads this, store
    {
      && Idle() && Reaches(settings, start, State())
      && Looped(prompts, answer, i, ran, gone, ref, notes)
      && Probed(ref, databaseUp && gone, start.states, store.states, start.plan, modelPlan, at, LoopReason(prompts, answer, i, gone), written)
      && journal == start.journal + notes + written
    }

    /** One chat prompt; a blank one is passed over. */
    method RunChatPrompt(ref: ModelRef, prompts: seq<Prompt>, answer: Prompt -> ProbeResult, i: nat, before: bool,
                         databaseUp: bool, ghost start: World, ghost was: Time, ghost earlier: seq<ModelEvent>)
        returns (ran: bool, gone: bool, ghost at: Time, ghost notes: seq<ModelEvent>, ghost written: seq<ModelEvent>)
      requires Looping(start, prompts, answer, i, before, false, ref, databaseUp, was, earlier, [])
      requires i < |prompts|
      modifies this`clock, this`stamp, this`modelPlan, this`journal, store`states, store`events
      ensures Looping(start, prompts, answer, i + 1, ran, gone, ref, databaseUp, at, notes, written)
    {
      if prompts[i].id == "" || prompts[i].text == "" {
        LoopSkipped(prompts, answer, i, before, ref, earlier);
        return before, false, was, earlier, [];
      }
      ran := true;
      ghost var middle := State();
      ghost var note;
      gone, at, note, written := RecordRun(ref, Chat, answer(prompts[i]), "chat probe reported model unavailable: ", databaseUp);
      ReachesTransitive(settings, start, middle, State());
      LoopRan(prompts, answer, i, before, gone, ref, earlier, note, start.journal, written);
      notes := earlier + [note];
    }

    /** The scheduled embedding probe of one model; a blank fixture skips it, a failed run record ends it. */
    method RunEmbeddingTest(ref: ModelRef, input: string, result: ProbeResult, recorded: bool, databaseUp: bool)
        returns (ok: bool, ghost at: Time, ghost notes: seq<ModelEvent>, ghost written: seq<ModelEvent>)
      requires Idle()
      modifies this`clock, this`stamp, this`modelPlan, this`journal, store`states, store`events
      ensures Idle() && Reaches(settings, old(State()), State())
      ensures Probed(ref, TrimSpace(input) != "" && recorded && databaseUp && !result.ok
                          && (result.statusCode in {404, 410}
                              || (result.statusCode in {400, 422, 503} && SaysGone(result.error))),
                     old(store.states), store.states, old(modelPlan), modelPlan, at,
                     "embedding probe reported model unavailable: " + result.summary, written)
      ensures ok <==> TrimSpace(input) == ""
                      || (recorded && (databaseUp || result.ok
                                       || !(result.statusCode in {404, 410}
                                            || (result.statusCode in {400, 422, 503} && SaysGone(result.error)))))
      ensures journal == old(journal) + notes + written
      ensures |notes| == if TrimSpace(input) == "" || recorded then 1 else 0
      ensures forall i :: 0 <= i < |notes| ==>
                notes[i] == ModelEvent(ref, Diagnostic(if TrimSpace(input) == "" then "skipped" else "scheduled_run"), Embedding,
                                       notes[i].observedAt, false, 0)
    {
      ghost var start := State();
      ReachesItself(settings, start);
      at, notes, written := clock, [], [];
      UnavailableMeans(result);
      assert journal + [] + [] == journal;
      if TrimSpace(input) == "" {
        var skippedAt := Now();
        ghost var note := RecordNote(ref, "skipped", Embedding, skippedAt, start);
        assert journal + [] == journal;
        return true, at, [note], written;
      }
      if !recorded {
        return false, at, notes, written;
      }
      var gone;
      ghost var note;
      gone, at, note, written := RecordRun(ref, Embedding, result, "embedding probe reported model unavailable: ", databaseUp);
      return !gone || databaseUp, at, [note], written;
    }

    /** A finished run: its diagnostic event, then the deactivation if the model is gone. */
    method RecordRun(ref: ModelRef, capability: Capability, result: ProbeResult, reason: string, databaseUp: bool)
        returns (gone: bool, ghost at: Time, ghost note: ModelEvent, ghost written: seq<ModelEvent>)
      requires Idle()
      modifies this`clock, this`stamp, this`modelPlan, this`journal, store`states, store`events
      ensures Idle() && Reaches(settings, old(State()), State())
      ensures gone <==> SaysModelGone(result)
      ensures Probed(ref, gone && databaseUp, old(store.states), store.states, old(modelPlan), modelPlan, at,
                     reason + result.summary, written)
      ensures note == ModelEvent(ref, Diagnostic("scheduled_run"), capability, note.observedAt, false, 0)
      ensures journal == old(journal) + [note] + written
    {
      ghost var start := State();
      ReachesItself(settings, start);
      UnavailableMeans(result);
      var startedAt := Now();
      at, written := startedAt, [];
      note := RecordNote(ref, "scheduled_run", capability, startedAt, start);
      gone := Unavailable(result);
      if gone {
        ghost var middle := State();
        var marked;
        marked, written := MarkModelInactive(ref, startedAt, reason + result.summary, databaseUp);
        ReachesTransitive(settings, start, middle, State());
      }
      assert journal + [] == journal;
    }

    /** A diagnostic event, read off the clock no earlier than the run it reports. */
    method RecordNote(ref: ModelRef, name: string, capability: Capability, startedAt: Time, ghost start: World)
        returns (ghost note: ModelEvent)
      requires Idle() && stamp < startedAt <= clock && Reaches(settings, start, State())
      modifies this`journal, store`events
      ensures Idle() && Reaches(settings, start, State())
      ensures note == ModelEvent(ref, Diagnostic(name), capability, note.observedAt, false, 0)
      ensures journal == old(journal) + [note] && store.events == old(store.events) + [note]
    {
      ghost var before := State();
      var at: Time :| at >= startedAt;
      var event := ModelEvent(ref, Diagnostic(name), capability, at, false, 0);
      note := event;
      store.RecordModelEvent(event);
      journal := journal + [note];
      Took(Note(note), before);
      ReachesTransitive(settings, start, before, State());
    }

    /** Retention; disabled by a zero window. */
    method PruneHistory() returns (ghost at: Time)
      requires Idle()
      modifies this`clock, this`stamp, this`horizon, store
      ensures Idle() && Reaches(settings, old(State()), State())
      ensures settings.history <= 0 ==> State() == old(State())
      ensures settings.history > 0 ==> Next(settings, old(State()), Prune(at), State()) && old(clock) < at
      ensures settings.history > 0 ==>
                && OnlySince(old(store.events), store.events, old(store.snapshots), store.snapshots, at - settings.history)
                && Database.AlertsKept(old(store.alerts), store.alerts, store.states, at - settings.history)
                && store.states == old(store.states)
    {
      ghost var start := State();
      ReachesItself(settings, start);
      at := clock;
      if settings.history <= 0 {
        return;
      }
      var now := Now();
      at := now;
      var cutoff := now - settings.history;
      SinceMeans(store.events, store.snapshots, cutoff);
      store.PruneHistoryBefore(cutoff);
      horizon, stamp := Some(if horizon.Some? then Max(horizon.value, cutoff) else cutoff), now;
      assert State() == Pruned(start, cutoff).(now := now);
      PruneTaken(settings, start, now);
    }
  }

  /** The prompt runs, and its answer says that the model does not exist. */
  ghost predicate Condemns(p: Prompt, r: ProbeResult) {
    && p.id != "" && p.text != ""
    && !r.ok && (r.statusCode in {404, 410} || (r.statusCode in {400, 422, 503} && SaysGone(r.error)))
  }

  /** How many prompts run up to and including position stop. */
  ghost function Runs(prompts: seq<Prompt>, stop: nat): nat {
    |Filter(prompts[..if stop < |prompts| then stop + 1 else |prompts|], (p: Prompt) => p.id != "" && p.text != "")|
  }

  /** A scheduled probe deactivated the model and dropped it from the plan, or moved neither. */
  ghost predicate Probed(ref: ModelRef, gone: bool, before: map<ModelRef, ModelState>, after: map<ModelRef, ModelState>,
                         planBefore: seq<PlanItem>, planAfter: seq<PlanItem>, at: Time, reason: string,
                         written: seq<ModelEvent>)
  {
    if gone then ModelFailed(ref, reason, before, after, planBefore, planAfter, at, written)
    else after == before && planAfter == planBefore && written == []
  }

  /** A probe failure deactivated the model and dropped it from the plan. */
  ghost predicate ModelFailed(ref: ModelRef, reason: string, before: map<ModelRef, ModelState>,
                              after: map<ModelRef, ModelState>, planBefore: seq<PlanItem>, planAfter: seq<PlanItem>,
                              at: Time, written: seq<ModelEvent>)
  {
    && (forall other :: DeactivationOutcome(other, other == ref, Get(before, other), at, reason, Get(after, other), written))
    && (forall item :: item in planAfter <==> item in planBefore && item.ref != ref)
  }

  /** A provider failure deactivated the provider's models and emptied its plan. */
  ghost predicate ProviderFailed(provider: string, reason: string, before: map<ModelRef, ModelState>,
                                 after: map<ModelRef, ModelState>, planBefore: seq<PlanItem>, planAfter: seq<PlanItem>,
                                 at: Time, written: seq<ModelEvent>)
  {
    && (forall ref: ModelRef ::
          DeactivationOutcome(ref, ref.provider == provider, Get(before, ref), at, reason, Get(after, ref), written))
    && (forall item :: item in planAfter <==> item in planBefore && item.ref.provider != provider)
  }

  /** The chat loop after i prompts: whether one ran, whether the last one condemned the model, and the notes so far. */
  ghost predicate Looped(prompts: seq<Prompt>, answer: Prompt -> ProbeResult, i: nat, ran: bool, gone: bool,
                         ref: ModelRef, notes: seq<ModelEvent>)
  {
    && i <= |prompts| && (gone ==> i > 0 && ran && Condemns(prompts[i - 1], answer(prompts[i - 1])))
    && (ran <==> exists j :: 0 <= j < i && prompts[j].id != "" && prompts[j].text != "") && (!ran ==> notes == [])
    && (forall j :: 0 <= j < (if gone then i - 1 else i) ==> !Condemns(prompts[j], answer(prompts[j])))
    && |notes| == |Filter(prompts[..i], (p: Prompt) => p.id != "" && p.text != "")|
    && (forall k :: 0 <= k < |notes| ==>
          notes[k] == ModelEvent(ref, Diagnostic("scheduled_run"), Chat, notes[k].observedAt, false, 0))
  }

  ghost function LoopReason(prompts: seq<Prompt>, answer: Prompt -> ProbeResult, i: nat, gone: bool): string
    requires i <= |prompts| && (gone ==> i > 0)
  {
    if gone then "chat probe reported model unavailable: " + answer(prompts[i - 1]).summary else ""
  }

  /** Exactly the events and snapshots at or after the cutoff are left. */
  ghost predicate OnlySince(events: seq<ModelEvent>, eventsLeft: seq<ModelEvent>, snapshots: seq<Snapshot>,
                            snapshotsLeft: seq<Snapshot>, cutoff: Time)
  {
    && (forall e :: e in eventsLeft <==> e in events && e.observedAt >= cutoff)
    && (forall snapshot :: snapshot in snapshotsLeft <==> snapshot in snapshots && snapshot.observedAt >= cutoff)
  }

  lemma {:induction false} SinceMeans(events: seq<ModelEvent>, snapshots: seq<Snapshot>, cutoff: Time)
    ensures OnlySince(events, EventsSince(events, cutoff), snapshots, SnapshotsSince(snapshots, cutoff), cutoff)
  {
    EventsSinceIsFilter(events, cutoff);
    SnapshotsSinceIsFilter(snapshots, cutoff);
    FilterContains(events, (e: ModelEvent) => e.observedAt >= cutoff);
    FilterContains(snapshots, (snapshot: Snapshot) => snapshot.observedAt >= cutoff);
  }

  /** What the loop has found out when it stops. */
  lemma {:induction false} LoopEnds(prompts: seq<Prompt>, answer: Prompt -> ProbeResult, i: nat, ran: bool, gone: bool,
                                    ref: ModelRef, notes: seq<ModelEvent>, databaseUp: bool, start: World, end: World,
                                    at: Time, written: seq<ModelEvent>)
    requires Looped(prompts, answer, i, ran, gone, ref, notes) && (i == |prompts| || gone)
    requires Probed(ref, databaseUp && gone, start.states, end.states, start.plan, end.plan, at, LoopReason(prompts, answer, i, gone), written)
    ensures ran <==> exists p :: p in prompts && p.id != "" && p.text != ""
    ensures gone <==> exists p :: p in prompts && p.id != "" && p.text != "" && !answer(p).ok
                                  && (answer(p).statusCode in {404, 410}
                                      || (answer(p).statusCode in {400, 422, 503} && SaysGone(answer(p).error)))
    ensures forall item :: item in end.plan <==> item in start.plan && !(item.ref == ref && databaseUp && gone)
    ensures |notes| == Runs(prompts, if gone then i - 1 else i)
  {
    if ran {
      var j :| 0 <= j < i && prompts[j].id != "" && prompts[j].text != "";
      assert prompts[j] in prompts;
    }
    if gone {
      assert prompts[i - 1] in prompts;
    }
    forall p | p in prompts && Condemns(p, answer(p)) ensures gone {
      var j :| 0 <= j < |prompts| && prompts[j] == p;
      assert Condemns(prompts[j], answer(prompts[j]));
    }
  }

  lemma {:induction false} LoopRan(prompts: seq<Prompt>, answer: Prompt -> ProbeResult, i: nat, ran: bool, gone: bool, ref: ModelRef,
                                   notes: seq<ModelEvent>, note: ModelEvent, journal: seq<ModelEvent>, written: seq<ModelEvent>)
    requires i < |prompts| && prompts[i].id != "" && prompts[i].text != ""
    requires Looped(prompts, answer, i, ran, false, ref, notes)
    requires gone <==> SaysModelGone(answer(prompts[i]))
    requires note == ModelEvent(ref, Diagnostic("scheduled_run"), Chat, note.observedAt, false, 0)
    ensures Looped(prompts, answer, i + 1, true, gone, ref, notes + [note])
    ensures journal + notes + [] + [note] + written == journal + (notes + [note]) + written
  {
    assert prompts[..i + 1][..i] == prompts[..i];
  }

  lemma {:induction false} LoopSkipped(prompts: seq<Prompt>, answer: Prompt -> ProbeResult, i: nat, ran: bool, ref: ModelRef,
                                       notes: seq<ModelEvent>)
    requires i < |prompts| && (prompts[i].id == "" || prompts[i].text == "")
    requires Looped(prompts, answer, i, ran, false, ref, notes)
    ensures Looped(prompts, answer, i + 1, ran, false, ref, notes)
  {
    assert prompts[..i + 1][..i] == prompts[..i];
  }

  /** The active models of the provider are the listed ones, no more and no fewer. */
  ghost predicate ActiveExactly(states: map<ModelRef, ModelState>, provider: string, ids: seq<string>) {
    forall id :: (ModelRef(provider, id) in states && states[ModelRef(provider, id)].status == Active) <==> id in ids
  }

  lemma {:induction false} ActiveAreListed(provider: string, ids: seq<string>, observed: seq<ObservedModel>, now: Time,
                                           before: map<ModelRef, ModelState>, after: map<ModelRef, ModelState>,
                                           written: seq<ModelEvent>)
    requires AllSound(before) && Committed(Observation(provider, observed, now), before, after, written)
    requires |observed| == |ids| && forall i :: 0 <= i < |ids| ==> observed[i].id == ids[i]
    ensures ActiveExactly(after, provider, ids)
  {
    ObservationIsExact(provider, observed, now, before, after, written);
    forall id ensures (exists o :: o in observed && o.id == id) <==> id in ids {
      if id in ids {
        var i :| 0 <= i < |ids| && ids[i] == id;
        assert observed[i] in observed;
      }
    }
  }

  lemma {:induction false} DetectionsListIds(ids: seq<string>, chat: string -> ProbeResult, embedding: string -> ProbeResult,
                                             known: map<string, Capability>)
    ensures var observed := Detections(ids, chat, embedding, known);
            && (DistinctIds(observed) <==> Distinct(ids))
            && (forall o :: o in observed ==> Classified(o))
            && (forall id :: (exists o :: o in observed && o.id == id) <==> id in ids)
  {
    var observed := Detections(ids, chat, embedding, known);
    assert forall i :: 0 <= i < |ids| ==> observed[i].id == ids[i] && observed[i] in observed;
  }

  lemma {:induction false} ReachableIsSound(s: Settings, w: World)
    requires Reaches(s, INITIAL, w)
    ensures AllSound(w.states)
  {
    var ws, steps := ReachedByRun(s, w);
    Inventory.AlwaysConsistent(s, ws, steps, |steps|);
  }

  /** Between tasks, the live object has every guarantee proved of runs. */
  lemma {:induction false} IdleServiceGuarantees(service: ModelService)
    requires service.Idle()
    ensures Inventory.Consistent(service.State()) && Inventory.TablesAreRecent(service.State())
    ensures forall i, j :: 0 <= i < j < |service.modelPlan| ==> service.modelPlan[i].ref != service.modelPlan[j].ref
    ensures forall item :: item in service.modelPlan <==>
              var states := service.store.states;
              && item.ref in states && states[item.ref].status == Active && !states[item.ref].excluded
              && (states[item.ref].capability == Chat || states[item.ref].capability == Embedding)
              && item == PlanItem(item.ref, states[item.ref].capability, false)
    ensures service.settings.history <= 0 || service.settings.history >= 999_999_997
            || service.settings.absenceAlertAfter >= 999_999_998 ==>
              forall i, j :: 0 <= i < j < |service.deliveries| ==>
                Key(service.deliveries[i].request) != Key(service.deliveries[j].request)
    ensures forall ref :: AlertLedger.FirstSeenDeliveries(service.deliveries, ref) <= 1
  {
    var s, w := service.settings, service.State();
    var ws, steps := ReachedByRun(s, w);
    Inventory.AlwaysConsistent(s, ws, steps, |steps|);
    Inventory.RetentionIsExact(s, ws, steps, |steps|);
    AgreesMeans(service.modelPlan, service.store.states);
    if AlertLedger.RetentionSuffices(s) {
      AlertLedger.AlwaysLedgerSound(s, ws, steps, |steps|);
    }
    forall ref ensures AlertLedger.FirstSeenDeliveries(service.deliveries, ref) <= 1 {
      AlertLedger.FirstSeenAtMostOnce(s, ws, steps, |steps|, ref);
    }
  }
}
