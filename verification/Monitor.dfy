/**
 * The worker as a state machine: the tables the model tasks share, the in-memory plan,
 * and one step per transaction or alert attempt. Tasks are atomic: no other task starts
 * while a refresh still has event alerts to attempt. Clock readings strictly increase.
 */
module Monitor {
  import opened Basics
  import opened Lifecycle
  import opened PlanCache
  import opened Keys

  const SECOND: int := 1_000_000_000

  /** time.Time.Unix() */
  function Unix(t: Time): int { t / SECOND }

  /** retention.history and models.absence_alert_after */
  datatype Settings = Settings(history: int, absenceAlertAfter: int)

  datatype Snapshot = Snapshot(provider: string, observedAt: Time, items: seq<ObservedModel>)

  datatype AlertKind = FirstSeen | CameBack | WentInactive

  datatype AlertRequest = AlertRequest(kind: AlertKind, ref: ModelRef, at: Time)

  /** A row of email_alerts; an empty error means delivered. */
  datatype AlertRow = AlertRow(kind: AlertKind, ref: ModelRef, sentAt: Time, error: string)

  /** What notifier.Send returned. */
  datatype Outcome = Sent | Failed(error: string)

  datatype Delivery = Delivery(request: AlertRequest, sentAt: Time)

  datatype World = World(
    now: Time,
    states: map<ModelRef, ModelState>,   // model_states
    snapshots: seq<Snapshot>,            // model_snapshots with their items
    events: seq<ModelEvent>,             // model_events
    alerts: map<string, AlertRow>,       // email_alerts by alert_key
    plan: seq<PlanItem>,                 // the in-memory model plan
    pending: seq<AlertRequest>,          // event alerts the current refresh has yet to attempt
    // history of the run, which the program does not keep:
    journal: seq<ModelEvent>,            // every event ever written
    archive: seq<Snapshot>,              // every snapshot ever committed
    horizon: Option<Time>,               // the latest cutoff ever pruned with
    deliveries: seq<Delivery>            // every mail the notifier accepted
  )

  const INITIAL := World(0, map[], [], [], map[], [], [], [], [], None, [])

  function KeyPrefix(kind: AlertKind): string {
    match kind
    case FirstSeen => "first-seen"
    case CameBack => "returned"
    case WentInactive => "inactive"
  }

  /** modelAlertKey */
  function Key(r: AlertRequest): string {
    AlertKeyText(KeyPrefix(r.kind), r.ref.provider, r.ref.model, Unix(r.at))
  }

  lemma {:induction false} KeysDiffer(r: AlertRequest, q: AlertRequest)
    requires Slug(r.ref.provider) && Slug(q.ref.provider)
    requires Key(r) == Key(q)
    ensures r.kind == q.kind && r.ref == q.ref && Unix(r.at) == Unix(q.at)
  {
    var a, b := KeyPrefix(r.kind), KeyPrefix(q.kind);
    AlertKeyInjective(a, r.ref.provider, r.ref.model, Unix(r.at), b, q.ref.provider, q.ref.model, Unix(q.at));
    assert |a| == |b|;
  }

  /** The alert a refresh attempts for one event it wrote, if any. */
  function RequestsFor(e: ModelEvent, s: Settings): seq<AlertRequest> {
    if e.eventType == Added then [AlertRequest(FirstSeen, e.ref, e.observedAt)]
    else if e.eventType == Returned && e.missingFor >= s.absenceAlertAfter
    then [AlertRequest(CameBack, e.ref, e.observedAt)]
    else []
  }

  /** The alerts a refresh attempts for the events it wrote, in order. */
  function Requests(written: seq<ModelEvent>, s: Settings): seq<AlertRequest> {
    if written == [] then []
    else Requests(written[..|written| - 1], s) + RequestsFor(written[|written| - 1], s)
  }

  /** EmailAlertExists */
  predicate Recorded(alerts: map<string, AlertRow>, key: string) {
    key in alerts && alerts[key].error == ""
  }

  /** RecordEmailAlert: insert, or overwrite a failed attempt. */
  function Upserted(alerts: map<string, AlertRow>, key: string, row: AlertRow): map<string, AlertRow> {
    if Recorded(alerts, key) then alerts else alerts[key := row]
  }

  function ErrorText(outcome: Outcome): string {
    if outcome.Sent? then "" else outcome.error
  }

  function AlertNote(r: AlertRequest, at: Time, outcome: Outcome): ModelEvent {
    ModelEvent(r.ref, Diagnostic(if outcome.Sent? then "alert_sent" else "alert_failed"), Unknown, at, false, 0)
  }

  /** sendModelAlert: skip a recorded delivery, else send, record the attempt and note it. */
  function Attempt(w: World, r: AlertRequest, sentAt: Time, recordedAt: Time, outcome: Outcome): World {
    if Recorded(w.alerts, Key(r)) then w
    else
      var note := AlertNote(r, recordedAt, outcome);
      w.(now := recordedAt,
         alerts := Upserted(w.alerts, Key(r), AlertRow(r.kind, r.ref, sentAt, ErrorText(outcome))),
         deliveries := w.deliveries + (if outcome.Sent? then [Delivery(r, sentAt)] else []),
         events := w.events + [note],
         journal := w.journal + [note])
  }

  /** The alert rows retention must keep: an inactive alert whose model is still inactive. */
  predicate Protected(row: AlertRow, states: map<ModelRef, ModelState>) {
    && row.kind == WentInactive
    && row.ref in states
    && states[row.ref].status == Inactive
    && states[row.ref].missingSince.Some?
  }

  function KeptAlerts(alerts: map<string, AlertRow>, states: map<ModelRef, ModelState>, cutoff: Time): map<string, AlertRow> {
    map key | key in alerts && (alerts[key].sentAt >= cutoff || Protected(alerts[key], states)) :: alerts[key]
  }

  function EventsSince(log: seq<ModelEvent>, cutoff: Time): seq<ModelEvent> {
    if log == [] then []
    else EventsSince(log[..|log| - 1], cutoff)
           + (if log[|log| - 1].observedAt >= cutoff then [log[|log| - 1]] else [])
  }

  function SnapshotsSince(log: seq<Snapshot>, cutoff: Time): seq<Snapshot> {
    if log == [] then []
    else SnapshotsSince(log[..|log| - 1], cutoff)
           + (if log[|log| - 1].observedAt >= cutoff then [log[|log| - 1]] else [])
  }

  lemma {:induction false} EventsSinceIsFilter(log: seq<ModelEvent>, cutoff: Time)
    ensures EventsSince(log, cutoff) == Filter(log, (e: ModelEvent) => e.observedAt >= cutoff)
  {
    if log != [] {
      EventsSinceIsFilter(log[..|log| - 1], cutoff);
    }
  }

  lemma {:induction false} SnapshotsSinceIsFilter(log: seq<Snapshot>, cutoff: Time)
    ensures SnapshotsSince(log, cutoff) == Filter(log, (snapshot: Snapshot) => snapshot.observedAt >= cutoff)
  {
    if log != [] {
      SnapshotsSinceIsFilter(log[..|log| - 1], cutoff);
    }
  }

  /** PruneHistoryBefore */
  function Pruned(w: World, cutoff: Time): World {
    w.(events := EventsSince(w.events, cutoff),
       alerts := KeptAlerts(w.alerts, w.states, cutoff),
       snapshots := SnapshotsSince(w.snapshots, cutoff),
       horizon := Some(if w.horizon.Some? then Max(w.horizon.value, cutoff) else cutoff))
  }

  /** A transaction on model_states and its events, with the plan it leaves behind. */
  ghost predicate Transacted(t: Transition, at: Time, w: World, written: seq<ModelEvent>, plan: seq<PlanItem>, v: World) {
    && Committed(t, w.states, v.states, written)
    && v == w.(now := at, states := v.states, plan := plan, events := w.events + written, journal := w.journal + written)
  }

  datatype Step =
    | Refresh(provider: string, observed: seq<ObservedModel>, now: Time, written: seq<ModelEvent>)
    | Aborted(now: Time)
    | ProviderDown(provider: string, now: Time, reason: string, written: seq<ModelEvent>)
    | ModelGone(ref: ModelRef, now: Time, reason: string, written: seq<ModelEvent>)
    | EventAlert(sentAt: Time, recordedAt: Time, outcome: Outcome)
    | InactiveAlert(ref: ModelRef, queryNow: Time, sentAt: Time, recordedAt: Time, outcome: Outcome)
    | Prune(now: Time)
    | Note(event: ModelEvent)

  /** InactiveModelsForAlert selects the row: inactive for at least the threshold. */
  predicate DueForAlert(row: Option<ModelState>, queryNow: Time, threshold: int) {
    && row.Some? && row.value.status == Inactive && row.value.missingSince.Some?
    && row.value.missingSince.value <= queryNow - threshold
  }

  ghost predicate Next(s: Settings, w: World, step: Step, v: World) {
    match step
    case Refresh(provider, observed, now, written) =>
      && w.now < now && w.pending == []
      && Slug(provider) && DistinctIds(observed) && (forall o :: o in observed ==> Classified(o))
      && var snapshot := Snapshot(provider, now, observed);
         Transacted(Observation(provider, observed, now), now,
                    w.(snapshots := w.snapshots + [snapshot], archive := w.archive + [snapshot],
                       pending := Requests(written, s)),
                    written, Reloaded(w.plan, provider, observed), v)
    case Aborted(now) =>
      // a duplicate id in the inventory, or any database error, rolls the transaction back
      && w.now < now && w.pending == []
      && v == w.(now := now)
    case ProviderDown(provider, now, reason, written) =>
      // a failed inventory request or a failed HTTP check
      && w.now < now && w.pending == []
      && Transacted(ProviderDeactivation(provider, now, reason), now, w, written, WithoutProvider(w.plan, provider), v)
    case ModelGone(ref, now, reason, written) =>
      && w.now < now && w.pending == []
      && Transacted(Deactivation(ref, now, reason), now, w, written, WithoutModel(w.plan, ref), v)
    case EventAlert(sentAt, recordedAt, outcome) =>
      && w.now < sentAt <= recordedAt && w.pending != []
      && v == Attempt(w.(pending := w.pending[1..]), w.pending[0], sentAt, recordedAt, outcome)
    case InactiveAlert(ref, queryNow, sentAt, recordedAt, outcome) =>
      && queryNow <= sentAt && w.now < sentAt <= recordedAt && w.pending == []
      && DueForAlert(Get(w.states, ref), queryNow, s.absenceAlertAfter)
      && v == Attempt(w, AlertRequest(WentInactive, ref, w.states[ref].missingSince.value), sentAt, recordedAt, outcome)
    case Prune(now) =>
      && w.now < now && w.pending == [] && s.history > 0
      && v == Pruned(w, now - s.history).(now := now)
    case Note(event) =>
      // diagnostics carry a later reading than the transaction they accompany, and do not hold it up
      && w.now < event.observedAt && !event.changed
      && v == w.(events := w.events + [event], journal := w.journal + [event])
  }

  /** A run of the worker from an empty database. */
  ghost predicate IsRun(s: Settings, ws: seq<World>, steps: seq<Step>) {
    IsPath(s, ws, steps) && ws[0] == INITIAL
  }

  /** Some steps, possibly none, lead from w to v. */
  ghost predicate Reaches(s: Settings, w: World, v: World) {
    exists ws: seq<World>, steps: seq<Step> :: IsPath(s, ws, steps) && ws[0] == w && ws[|steps|] == v
  }

  ghost predicate IsPath(s: Settings, ws: seq<World>, steps: seq<Step>) {
    && |ws| == |steps| + 1
    && forall i {:trigger steps[i]} :: 0 <= i < |steps| ==> Next(s, ws[i], steps[i], ws[i + 1])
  }

  lemma {:induction false} ReachesItself(s: Settings, w: World)
    ensures Reaches(s, w, w)
  {
    var none: seq<Step> := [];
    assert IsPath(s, [w], none) && [w][0] == w && [w][|none|] == w;
  }

  lemma {:induction false} ReachesNext(s: Settings, w: World, v: World, step: Step, u: World)
    requires Reaches(s, w, v) && Next(s, v, step, u)
    ensures Reaches(s, w, u)
  {
    var ws, steps :| IsPath(s, ws, steps) && ws[0] == w && ws[|steps|] == v;
    var ws', steps' := ws + [u], steps + [step];
    assert IsPath(s, ws', steps');
    assert ws'[0] == w && ws'[|steps'|] == u;
  }

  /** What a service reaches from the empty database is the end of some run. */
  lemma {:induction false} ReachedByRun(s: Settings, w: World) returns (ws: seq<World>, steps: seq<Step>)
    requires Reaches(s, INITIAL, w)
    ensures IsRun(s, ws, steps) && ws[|steps|] == w
  {
    ws, steps :| IsPath(s, ws, steps) && ws[0] == INITIAL && ws[|steps|] == w;
  }

  lemma {:induction false} ReachesTransitive(s: Settings, u: World, v: World, w: World)
    requires Reaches(s, u, v) && Reaches(s, v, w)
    ensures Reaches(s, u, w)
  {
    var ws, steps :| IsPath(s, ws, steps) && ws[0] == v && ws[|steps|] == w;
    ReachesAlong(s, u, ws, steps, |steps|);
  }

  lemma {:induction false} ReachesAlong(s: Settings, u: World, ws: seq<World>, steps: seq<Step>, k: nat)
    requires IsPath(s, ws, steps) && k <= |steps| && Reaches(s, u, ws[0])
    ensures Reaches(s, u, ws[k])
  {
    if k > 0 {
      ReachesAlong(s, u, ws, steps, k - 1);
      assert Next(s, ws[k - 1], steps[k - 1], ws[k - 1 + 1]);
      ReachesNext(s, u, ws[k - 1], steps[k - 1], ws[k]);
    }
  }

  /** Steps that are not transactions leave the states alone and only write notes. */
  lemma {:induction false} InventoryFrame(s: Settings, w: World, step: Step, v: World)
    requires Next(s, w, step, v)
    requires step.EventAlert? || step.InactiveAlert? || step.Aborted? || step.Prune? || step.Note?
    ensures v.states == w.states && v.archive == w.archive && v.plan == w.plan
    ensures forall ref :: Changes(v.journal, ref) == Changes(w.journal, ref)
  {
    forall ref ensures Changes(v.journal, ref) == Changes(w.journal, ref) {
      if v.journal != w.journal {
        var note := v.journal[|v.journal| - 1];
        assert v.journal == w.journal + [note] && !note.changed;
        assert [note][..0] == [];
        ChangesAppend(w.journal, [note], ref);
      }
    }
  }

  /** The transaction a step commits, if it is one. */
  function TransitionOf(step: Step): Transition
    requires step.Refresh? || step.ProviderDown? || step.ModelGone?
  {
    match step
    case Refresh(provider, observed, now, _) => Observation(provider, observed, now)
    case ProviderDown(provider, now, reason, _) => ProviderDeactivation(provider, now, reason)
    case ModelGone(ref, now, reason, _) => Deactivation(ref, now, reason)
  }

  predicate Transactional(step: Step) { step.Refresh? || step.ProviderDown? || step.ModelGone? }

  lemma {:induction false} TransactionalStep(s: Settings, w: World, step: Step, v: World)
    requires Next(s, w, step, v) && Transactional(step)
    ensures Committed(TransitionOf(step), w.states, v.states, step.written)
    ensures v.journal == w.journal + step.written && v.events == w.events + step.written
  {
  }
}
