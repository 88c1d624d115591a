/**
 * The alert ledger: which mails can go out twice. The ledger remembers a delivery under
 * a key that carries the moment only to the second, and retention may drop it.
 */
module AlertLedger {
  import opened Basics
  import opened Lifecycle
  import opened Keys
  import opened PlanCache
  import opened Monitor
  import opened Inventory

  /** No two deliveries share an alert key. */
  ghost predicate AtMostOnce(deliveries: seq<Delivery>) {
    forall i, j :: 0 <= i < j < |deliveries| ==> Key(deliveries[i].request) != Key(deliveries[j].request)
  }

  /** Settings under which a pruned record can never be asked for again. */
  predicate RetentionSuffices(s: Settings) {
    s.history <= 0 || s.history >= SECOND - 3 || s.absenceAlertAfter >= SECOND - 2
  }

  // ----- what the steps do -----

  /** The alert an attempt is about. */
  function Asked(w: World, step: Step): AlertRequest
    requires step.EventAlert? ==> w.pending != []
    requires step.InactiveAlert? ==> step.ref in w.states && w.states[step.ref].missingSince.Some?
    requires step.EventAlert? || step.InactiveAlert?
  {
    if step.EventAlert? then w.pending[0] else InactiveRequest(w, step.ref)
  }

  function InactiveRequest(w: World, ref: ModelRef): AlertRequest
    requires ref in w.states && w.states[ref].missingSince.Some?
  {
    AlertRequest(WentInactive, ref, w.states[ref].missingSince.value)
  }

  /** Steps that are not transactions leave the states alone and ask for nothing new. */
  lemma {:induction false} QuietStep(s: Settings, w: World, step: Step, v: World)
    requires Next(s, w, step, v) && !Transactional(step)
    ensures v.states == w.states && v.now >= w.now
    ensures v.pending == w.pending || (w.pending != [] && v.pending == w.pending[1..])
    ensures forall r :: r in v.pending ==> r in w.pending
  {
  }

  lemma {:induction false} LoudStep(s: Settings, w: World, step: Step, v: World)
    requires Next(s, w, step, v) && Transactional(step)
    ensures v.now == step.now > w.now && w.pending == [] && v.deliveries == w.deliveries && v.alerts == w.alerts
    ensures v.pending == if step.Refresh? then Requests(step.written, s) else []
  {
  }

  /** Only retention removes a recorded delivery, and nothing overwrites one. */
  lemma {:induction false} RecordStays(s: Settings, w: World, step: Step, v: World, key: string)
    requires Next(s, w, step, v) && !step.Prune? && Recorded(w.alerts, key)
    ensures key in v.alerts && v.alerts[key] == w.alerts[key]
  {
  }

  /** A step delivers nothing, or one alert that had no record and now has one. */
  lemma {:induction false} StepDelivers(s: Settings, w: World, step: Step, v: World)
    requires Next(s, w, step, v) && v.deliveries != w.deliveries
    ensures step.EventAlert? || step.InactiveAlert?
    ensures step.EventAlert? ==> w.pending != []
    ensures step.InactiveAlert? ==> DueForAlert(Get(w.states, step.ref), step.queryNow, s.absenceAlertAfter) && step.queryNow <= step.sentAt
    ensures var r := Asked(w, step);
            && !Recorded(w.alerts, Key(r)) && w.now < step.sentAt <= v.now
            && v.deliveries == w.deliveries + [Delivery(r, step.sentAt)]
            && Kept(v, Delivery(r, step.sentAt))
  {
  }

  /** The event an alert was asked for. */
  lemma {:induction false} RequestsOf(written: seq<ModelEvent>, s: Settings, r: AlertRequest) returns (e: ModelEvent)
    requires r in Requests(written, s)
    ensures e in written && r.ref == e.ref && r.at == e.observedAt
    ensures || (r.kind == FirstSeen && e.eventType == Added)
            || (r.kind == CameBack && e.eventType == Returned && e.missingFor >= s.absenceAlertAfter)
  {
    var init, last := written[..|written| - 1], written[|written| - 1];
    assert written == init + [last];
    if r in Requests(init, s) {
      e := RequestsOf(init, s, r);
    } else {
      e := last;
    }
  }

  /** What a refresh asks for: the first sight of a new model, or the return of a long-absent one. */
  lemma {:induction false} RefreshAsks(s: Settings, w: World, step: Step, v: World, r: AlertRequest)
    requires AllSound(w.states) && Next(s, w, step, v) && step.Refresh? && r in v.pending
    ensures r.at == v.now && r.ref.provider == step.provider && Slug(r.ref.provider)
    ensures || (r.kind == FirstSeen && r.ref !in w.states)
            || (r.kind == CameBack && r.ref in w.states && w.states[r.ref].missingSince.Some?
                && v.now - w.states[r.ref].missingSince.value >= s.absenceAlertAfter)
    ensures r.ref in v.states && v.states[r.ref].status == Active
  {
    LoudStep(s, w, step, v);
    TransactionalStep(s, w, step, v);
    var t := TransitionOf(step);
    var e := RequestsOf(step.written, s, r);
    WrittenNow(t, w.states, v.states, step.written, e);
    assert Get(v.states, r.ref) == EffectOn(t, r.ref, Get(w.states, r.ref)).row;
    AskedEffect(t, r.ref, Get(w.states, r.ref), e);
  }

  /** The effects that announce a new or returned model. */
  lemma {:induction false} AskedEffect(t: Transition, ref: ModelRef, row: Option<ModelState>, e: ModelEvent)
    requires t.Observation? && EffectOn(t, ref, row).events == [e]
    requires row.Some? ==> Sound(row.value)
    ensures e.eventType == Added || e.eventType == Returned ==>
              ref.provider == t.provider && EffectOn(t, ref, row).row.Some? && EffectOn(t, ref, row).row.value.status == Active
    ensures e.eventType == Added ==> row.None?
    ensures e.eventType == Returned ==> row.Some? && row.value.missingSince == Some(t.now - e.missingFor)
  {
    assert [e][0] == e;
  }

  /** Deactivation times are transaction times. */
  lemma {:induction false} NewAbsences(s: Settings, w: World, step: Step, v: World, ref: ModelRef)
    requires Next(s, w, step, v) && Transactional(step) && AllSound(w.states)
    ensures ref in v.states && v.states[ref].missingSince.Some? ==>
              || v.states[ref].missingSince.value == v.now
              || (ref in w.states && w.states[ref].missingSince == v.states[ref].missingSince
                  && w.states[ref].status == v.states[ref].status)
    ensures ref in v.states ==> ref in w.states || (step.Refresh? && ref.provider == step.provider)
    ensures ref in w.states ==> ref in v.states
  {
    TransactionalStep(s, w, step, v);
    assert Get(v.states, ref) == EffectOn(TransitionOf(step), ref, Get(w.states, ref)).row;
    assert ref in w.states ==> Sound(w.states[ref]);
  }

  // ----- first-seen alerts: once per model, under any settings -----

  function FirstSeenDeliveries(deliveries: seq<Delivery>, ref: ModelRef): nat {
    if deliveries == [] then 0
    else
      var r := deliveries[|deliveries| - 1].request;
      FirstSeenDeliveries(deliveries[..|deliveries| - 1], ref) + (if r.kind == FirstSeen && r.ref == ref then 1 else 0)
  }

  function FirstSeenRequests(pending: seq<AlertRequest>, ref: ModelRef): nat {
    if pending == [] then 0
    else
      var r := pending[|pending| - 1];
      FirstSeenRequests(pending[..|pending| - 1], ref) + (if r.kind == FirstSeen && r.ref == ref then 1 else 0)
  }

  lemma {:induction false} FirstSeenRequestsAppend(a: seq<AlertRequest>, b: seq<AlertRequest>, ref: ModelRef)
    ensures FirstSeenRequests(a + b, ref) == FirstSeenRequests(a, ref) + FirstSeenRequests(b, ref)
  {
    if b == [] {
      assert a + b == a;
    } else {
      FirstSeenRequestsAppend(a, b[..|b| - 1], ref);
      assert (a + b)[..|a + b| - 1] == a + b[..|b| - 1];
    }
  }

  function Additions(history: seq<ModelEvent>): nat {
    if history == [] then 0
    else Additions(history[..|history| - 1]) + (if history[|history| - 1].eventType == Added then 1 else 0)
  }

  lemma {:induction false} OneRequest(e: ModelEvent, s: Settings, ref: ModelRef)
    ensures FirstSeenRequests(RequestsFor(e, s), ref) == if e.eventType == Added && e.ref == ref then 1 else 0
  {
    var asked := RequestsFor(e, s);
    assert asked != [] ==> |asked| == 1 && asked[..0] == [];
  }

  lemma {:induction false} AskedMore(init: seq<ModelEvent>, e: ModelEvent, s: Settings, ref: ModelRef)
    ensures FirstSeenRequests(Requests(init + [e], s), ref)
            == FirstSeenRequests(Requests(init, s), ref) + (if e.eventType == Added && e.ref == ref then 1 else 0)
  {
    assert (init + [e])[..|init|] == init;
    FirstSeenRequestsAppend(Requests(init, s), RequestsFor(e, s), ref);
    OneRequest(e, s, ref);
  }

  lemma {:induction false} AddedMore(init: seq<ModelEvent>, e: ModelEvent, ref: ModelRef)
    requires e.changed
    ensures Additions(Changes(init + [e], ref))
            == Additions(Changes(init, ref)) + (if e.eventType == Added && e.ref == ref then 1 else 0)
  {
    var history := Changes(init, ref);
    assert (init + [e])[..|init|] == init;
    assert (history + [e])[..|history|] == history && history + [] == history;
  }

  /** A refresh asks for one first-seen alert per `added` event. */
  lemma {:induction false} FirstSeenRequested(written: seq<ModelEvent>, s: Settings, ref: ModelRef)
    requires forall e :: e in written ==> e.changed
    ensures FirstSeenRequests(Requests(written, s), ref) == Additions(Changes(written, ref))
  {
    if written != [] {
      var init, e := written[..|written| - 1], written[|written| - 1];
      assert written == init + [e] && e in written;
      FirstSeenRequested(init, s, ref);
      AskedMore(init, e, s, ref);
      AddedMore(init, e, ref);
    }
  }

  /** Deliveries made plus requests outstanding: none for an unknown model, at most one ever. */
  ghost predicate FirstSeenBounded(w: World) {
    forall ref :: FirstSeenDeliveries(w.deliveries, ref) + FirstSeenRequests(w.pending, ref)
                  <= if ref in w.states then 1 else 0
  }

  /** A transaction asks for a first-seen alert of a model exactly when it stores the model. */
  lemma {:induction false} FirstSeenAskedOnce(s: Settings, w: World, step: Step, v: World, ref: ModelRef)
    requires Next(s, w, step, v) && Transactional(step)
    ensures FirstSeenRequests(v.pending, ref) <= if ref !in w.states && ref in v.states then 1 else 0
    ensures ref in w.states ==> ref in v.states
  {
    LoudStep(s, w, step, v);
    TransactionalStep(s, w, step, v);
    AdditionsCommitted(TransitionOf(step), w.states, v.states, step.written, ref);
    FirstSeenRequested(step.written, s, ref);
  }

  lemma {:induction false} AdditionsCommitted(t: Transition, before: map<ModelRef, ModelState>, after: map<ModelRef, ModelState>,
                                              written: seq<ModelEvent>, ref: ModelRef)
    requires Committed(t, before, after, written)
    ensures Additions(Changes(written, ref)) == if ref !in before && ref in after then 1 else 0
    ensures ref in before ==> ref in after
    ensures forall e :: e in written ==> e.changed
  {
    assert Get(after, ref) == EffectOn(t, ref, Get(before, ref)).row;
    assert Changes(written, ref) == EffectOn(t, ref, Get(before, ref)).events;
    AdditionsOfEffect(t, ref, Get(before, ref));
  }

  lemma {:induction false} FirstSeenAfterTransaction(s: Settings, w: World, step: Step, v: World, ref: ModelRef)
    requires Next(s, w, step, v) && Transactional(step)
    requires FirstSeenDeliveries(w.deliveries, ref) + FirstSeenRequests(w.pending, ref) <= if ref in w.states then 1 else 0
    ensures FirstSeenDeliveries(v.deliveries, ref) + FirstSeenRequests(v.pending, ref) <= if ref in v.states then 1 else 0
  {
    LoudStep(s, w, step, v);
    FirstSeenAskedOnce(s, w, step, v, ref);
  }

  lemma {:induction false} FirstSeenAfterAttempt(w: World, r: AlertRequest, sentAt: Time, recordedAt: Time,
                                                 outcome: Outcome, ref: ModelRef)
    ensures var v := Attempt(w, r, sentAt, recordedAt, outcome);
            && v.pending == w.pending && v.states == w.states
            && FirstSeenDeliveries(v.deliveries, ref)
               <= FirstSeenDeliveries(w.deliveries, ref) + (if r.kind == FirstSeen && r.ref == ref then 1 else 0)
  {
    var v := Attempt(w, r, sentAt, recordedAt, outcome);
    if v.deliveries != w.deliveries {
      assert v.deliveries[..|v.deliveries| - 1] == w.deliveries;
    }
  }

  lemma {:induction false} FirstSeenAfterEventAlert(s: Settings, w: World, step: Step, v: World, ref: ModelRef)
    requires Next(s, w, step, v) && step.EventAlert?
    ensures v.states == w.states
    ensures FirstSeenDeliveries(v.deliveries, ref) + FirstSeenRequests(v.pending, ref)
            <= FirstSeenDeliveries(w.deliveries, ref) + FirstSeenRequests(w.pending, ref)
  {
    var r, rest := w.pending[0], w.pending[1..];
    FirstSeenAfterAttempt(w.(pending := rest), r, step.sentAt, step.recordedAt, step.outcome, ref);
    FirstSeenHead(w.pending, ref);
  }

  lemma {:induction false} FirstSeenHead(pending: seq<AlertRequest>, ref: ModelRef)
    requires pending != []
    ensures FirstSeenRequests(pending, ref)
            == FirstSeenRequests(pending[1..], ref) + (if pending[0].kind == FirstSeen && pending[0].ref == ref then 1 else 0)
  {
    assert pending == [pending[0]] + pending[1..];
    FirstSeenRequestsAppend([pending[0]], pending[1..], ref);
    assert [pending[0]][..0] == [];
  }

  lemma {:induction false} FirstSeenBoundedKept(s: Settings, w: World, step: Step, v: World)
    requires FirstSeenBounded(w) && AllSound(w.states) && Next(s, w, step, v)
    ensures FirstSeenBounded(v)
  {
    forall ref
      ensures FirstSeenDeliveries(v.deliveries, ref) + FirstSeenRequests(v.pending, ref)
              <= if ref in v.states then 1 else 0
    {
      assert FirstSeenDeliveries(w.deliveries, ref) + FirstSeenRequests(w.pending, ref) <= if ref in w.states then 1 else 0;
      match step {
        case Refresh(_, _, _, _) => FirstSeenAfterTransaction(s, w, step, v, ref);
        case ProviderDown(_, _, _, _) => FirstSeenAfterTransaction(s, w, step, v, ref);
        case ModelGone(_, _, _, _) => FirstSeenAfterTransaction(s, w, step, v, ref);
        case EventAlert(_, _, _) => FirstSeenAfterEventAlert(s, w, step, v, ref);
        case InactiveAlert(target, _, sentAt, recordedAt, outcome) =>
          FirstSeenAfterAttempt(w, InactiveRequest(w, target), sentAt, recordedAt, outcome, ref);
        case _ =>
      }
    }
  }

  lemma {:induction false} AdditionsOfEffect(t: Transition, ref: ModelRef, row: Option<ModelState>)
    ensures Additions(EffectOn(t, ref, row).events)
            == if row.None? && EffectOn(t, ref, row).row.Some? then 1 else 0
    ensures row.Some? ==> EffectOn(t, ref, row).row.Some?
  {
    var events := EffectOn(t, ref, row).events;
    assert |events| <= 1;
    if events != [] {
      assert events[..|events| - 1] == [];
    }
  }

  /** Each model gets at most one first-seen delivery ever, whatever is pruned and whatever fails. */
  lemma {:induction false} FirstSeenAtMostOnce(s: Settings, ws: seq<World>, steps: seq<Step>, k: nat, ref: ModelRef)
    requires IsRun(s, ws, steps) && k < |ws|
    ensures FirstSeenDeliveries(ws[k].deliveries, ref) <= 1
    ensures forall i, j :: 0 <= i < j < |ws[k].deliveries| ==>
              var r, q := ws[k].deliveries[i].request, ws[k].deliveries[j].request;
              !(r.kind == FirstSeen && r.ref == ref && q.kind == FirstSeen && q.ref == ref)
  {
    forall i, j | 0 <= i < j < |ws[k].deliveries|
      && ws[k].deliveries[i].request.kind == FirstSeen && ws[k].deliveries[i].request.ref == ref
      && ws[k].deliveries[j].request.kind == FirstSeen && ws[k].deliveries[j].request.ref == ref
      ensures FirstSeenDeliveries(ws[k].deliveries, ref) >= 2
    {
      TwoFirstSeen(ws[k].deliveries, i, j, ref);
    }
    AlwaysFirstSeenBounded(s, ws, steps, k);
    assert FirstSeenDeliveries(ws[k].deliveries, ref) + FirstSeenRequests(ws[k].pending, ref)
        <= if ref in ws[k].states then 1 else 0;
  }

  lemma {:induction false} OneFirstSeen(deliveries: seq<Delivery>, i: nat, ref: ModelRef)
    requires i < |deliveries| && deliveries[i].request.kind == FirstSeen && deliveries[i].request.ref == ref
    ensures FirstSeenDeliveries(deliveries, ref) >= 1
  {
    if i < |deliveries| - 1 {
      OneFirstSeen(deliveries[..|deliveries| - 1], i, ref);
    }
  }

  lemma {:induction false} TwoFirstSeen(deliveries: seq<Delivery>, i: nat, j: nat, ref: ModelRef)
    requires i < j < |deliveries|
    requires deliveries[i].request.kind == FirstSeen && deliveries[i].request.ref == ref
    requires deliveries[j].request.kind == FirstSeen && deliveries[j].request.ref == ref
    ensures FirstSeenDeliveries(deliveries, ref) >= 2
  {
    if j < |deliveries| - 1 {
      TwoFirstSeen(deliveries[..|deliveries| - 1], i, j, ref);
    } else {
      OneFirstSeen(deliveries[..|deliveries| - 1], i, ref);
    }
  }

  lemma {:induction false} AlwaysFirstSeenBounded(s: Settings, ws: seq<World>, steps: seq<Step>, k: nat)
    requires IsRun(s, ws, steps) && k < |ws|
    ensures FirstSeenBounded(ws[k])
  {
    if k > 0 {
      AlwaysFirstSeenBounded(s, ws, steps, k - 1);
      AlwaysConsistent(s, ws, steps, k - 1);
      assert Next(s, ws[k - 1], steps[k - 1], ws[k - 1 + 1]);
      FirstSeenBoundedKept(s, ws[k - 1], steps[k - 1], ws[k]);
    }
  }

  /** A model whose first sight was delivered is stored. */
  lemma {:induction false} FirstSeenStored(w: World, d: Delivery)
    requires FirstSeenBounded(w) && d in w.deliveries && d.request.kind == FirstSeen
    ensures d.request.ref in w.states
  {
    DeliveryCounts(w.deliveries, d);
    assert FirstSeenDeliveries(w.deliveries, d.request.ref) + FirstSeenRequests(w.pending, d.request.ref)
           <= if d.request.ref in w.states then 1 else 0;
  }

  lemma {:induction false} DeliveryCounts(deliveries: seq<Delivery>, d: Delivery)
    requires d in deliveries && d.request.kind == FirstSeen
    ensures FirstSeenDeliveries(deliveries, d.request.ref) >= 1
  {
    var init, last := deliveries[..|deliveries| - 1], deliveries[|deliveries| - 1];
    assert deliveries == init + [last];
    if d in init {
      DeliveryCounts(init, d);
    }
  }

  // ----- the ledger: what holds of every delivery made -----

  /** The row written when the delivery was made is still there. */
  predicate Kept(w: World, d: Delivery) {
    var key := Key(d.request);
    key in w.alerts && w.alerts[key] == AlertRow(d.request.kind, d.request.ref, d.sentAt, "")
  }

  predicate InactiveInSecond(row: Option<ModelState>, second: int) {
    row.Some? && row.value.status == Inactive && row.value.missingSince.Some? && Unix(row.value.missingSince.value) == second
  }

  /** The second of the delivery has passed for every later clock reading. */
  predicate SecondOver(w: World, d: Delivery) {
    d.request.at + SECOND - 1 <= w.now
  }

  /** The row was pruned, and nothing can ask for its key again. */
  ghost predicate Settled(s: Settings, w: World, d: Delivery) {
    && (forall r :: r in w.pending ==> Key(r) != Key(d.request))
    && (d.request.kind == WentInactive ==>
          SecondOver(w, d) && !InactiveInSecond(Get(w.states, d.request.ref), Unix(d.request.at)))
    && (d.request.kind == CameBack ==> SecondOver(w, d) || s.absenceAlertAfter >= SECOND - 2)
  }

  /** The model is present, or was lost at least two clock readings after `at`. */
  predicate PresentSince(w: World, ref: ModelRef, at: Time) {
    ref in w.states && (w.states[ref].status == Active
                        || (w.states[ref].missingSince.Some? && w.states[ref].missingSince.value >= at + 2))
  }

  /** Times and providers of a delivery fit the inventory. */
  predicate Timely(s: Settings, w: World, d: Delivery) {
    && Slug(d.request.ref.provider) && d.request.at < d.sentAt <= w.now
    && (d.request.kind == WentInactive ==> d.request.at + s.absenceAlertAfter <= d.sentAt)
    && (d.request.kind == CameBack ==> PresentSince(w, d.request.ref, d.request.at))
  }

  ghost predicate WellKeyed(w: World) {
    && (forall ref :: ref in w.states ==> Slug(ref.provider))
    && (forall ref :: ref in w.states && w.states[ref].missingSince.Some? ==> w.states[ref].missingSince.value <= w.now)
    && (forall r :: r in w.pending ==> Slug(r.ref.provider) && r.at <= w.now && r.kind != WentInactive
                                       && r.ref in w.states && w.states[r.ref].status == Active)
  }

  ghost predicate LedgerSound(s: Settings, w: World) {
    && WellKeyed(w)
    && (forall d :: d in w.deliveries ==> Timely(s, w, d) && (Kept(w, d) || Settled(s, w, d)))
    && AtMostOnce(w.deliveries)
  }

  lemma {:induction false} WellKeyedKept(s: Settings, w: World, step: Step, v: World)
    requires WellKeyed(w) && AllSound(w.states) && Next(s, w, step, v)
    ensures WellKeyed(v)
  {
    if !Transactional(step) {
      QuietStep(s, w, step, v);
    } else {
      LoudStep(s, w, step, v);
      forall ref | ref in v.states
        ensures Slug(ref.provider)
        ensures v.states[ref].missingSince.Some? ==> v.states[ref].missingSince.value <= v.now
      {
        NewAbsences(s, w, step, v, ref);
      }
      forall r | r in v.pending
        ensures Slug(r.ref.provider) && r.at <= v.now && r.kind != WentInactive
        ensures r.ref in v.states && v.states[r.ref].status == Active
      {
        RefreshAsks(s, w, step, v, r);
      }
    }
  }

  lemma {:induction false} TimelyKept(s: Settings, w: World, step: Step, v: World, d: Delivery)
    requires WellKeyed(w) && AllSound(w.states) && Next(s, w, step, v) && Timely(s, w, d)
    ensures Timely(s, v, d)
  {
    if !Transactional(step) {
      QuietStep(s, w, step, v);
    } else {
      LoudStep(s, w, step, v);
      if d.request.kind == CameBack {
        var ref := d.request.ref;
        NewAbsences(s, w, step, v, ref);
        assert AllSound(v.states) by { SoundnessOfStep(s, w, step, v); }
        assert Sound(v.states[ref]);
      }
    }
  }

  lemma {:induction false} SoundnessOfStep(s: Settings, w: World, step: Step, v: World)
    requires AllSound(w.states) && Next(s, w, step, v) && Transactional(step)
    ensures AllSound(v.states)
  {
    TransactionalStep(s, w, step, v);
    SoundnessKept(TransitionOf(step), w.states, v.states, step.written);
  }

  /** A settled key is not asked for by a refresh either. */
  lemma {:induction false} RefreshAsksOther(s: Settings, w: World, step: Step, v: World, d: Delivery, r: AlertRequest)
    requires AllSound(w.states) && Next(s, w, step, v) && step.Refresh? && r in v.pending
    requires Timely(s, w, d) && Settled(s, w, d)
    requires d.request.kind == FirstSeen ==> d.request.ref in w.states
    ensures Key(r) != Key(d.request)
  {
    RefreshAsks(s, w, step, v, r);
    LoudStep(s, w, step, v);
    assert r.ref in w.states ==> Sound(w.states[r.ref]);
    assert r.kind == d.request.kind && r.ref == d.request.ref ==> r.at >= d.request.at + SECOND;
    if Key(r) == Key(d.request) {
      KeysDiffer(r, d.request);
    }
  }

  lemma {:induction false} SettledKept(s: Settings, w: World, step: Step, v: World, d: Delivery)
    requires AllSound(w.states) && Next(s, w, step, v)
    requires Timely(s, w, d) && Settled(s, w, d)
    requires d.request.kind == FirstSeen ==> d.request.ref in w.states
    ensures Settled(s, v, d)
  {
    if !Transactional(step) {
      QuietStep(s, w, step, v);
    } else {
      LoudStep(s, w, step, v);
      NewAbsences(s, w, step, v, d.request.ref);
      forall r | r in v.pending ensures Key(r) != Key(d.request) {
        RefreshAsksOther(s, w, step, v, d, r);
      }
    }
  }

  lemma {:induction false} KeptKept(s: Settings, w: World, step: Step, v: World, d: Delivery)
    requires RetentionSuffices(s) && Next(s, w, step, v)
    requires Timely(s, w, d) && Kept(w, d)
    ensures Kept(v, d) || Settled(s, v, d)
  {
    if !step.Prune? {
      RecordStays(s, w, step, v, Key(d.request));
    }
  }

  /** A new delivery has a key no earlier one had. */
  lemma {:induction false} NewKey(s: Settings, w: World, step: Step, v: World, d: Delivery)
    requires LedgerSound(s, w) && Next(s, w, step, v) && v.deliveries != w.deliveries && d in w.deliveries
    ensures step.EventAlert? ==> w.pending != []
    ensures step.InactiveAlert? ==> step.ref in w.states && w.states[step.ref].missingSince.Some?
    ensures step.EventAlert? || step.InactiveAlert?
    ensures Key(d.request) != Key(Asked(w, step))
  {
    StepDelivers(s, w, step, v);
    var r := Asked(w, step);
    assert Timely(s, w, d) && (Kept(w, d) || Settled(s, w, d));
    if step.EventAlert? {
      assert r in w.pending;
    } else if Key(d.request) == Key(r) {
      assert step.ref in w.states;
      KeysDiffer(d.request, r);
    }
  }

  lemma {:induction false} NewTimely(s: Settings, w: World, step: Step, v: World)
    requires LedgerSound(s, w) && Next(s, w, step, v) && v.deliveries != w.deliveries
    ensures v.deliveries[..|v.deliveries| - 1] == w.deliveries
    ensures Timely(s, v, v.deliveries[|v.deliveries| - 1]) && Kept(v, v.deliveries[|v.deliveries| - 1])
  {
    StepDelivers(s, w, step, v);
    QuietStep(s, w, step, v);
    var r := Asked(w, step);
    if step.EventAlert? {
      assert r in w.pending;
    } else {
      assert step.ref in w.states;
    }
  }

  lemma {:induction false} DeliveryKept(s: Settings, w: World, step: Step, v: World, d: Delivery)
    requires RetentionSuffices(s)
    requires LedgerSound(s, w) && FirstSeenBounded(w) && AllSound(w.states) && Next(s, w, step, v) && d in w.deliveries
    ensures Timely(s, v, d) && (Kept(v, d) || Settled(s, v, d))
  {
    TimelyKept(s, w, step, v, d);
    if Kept(w, d) {
      KeptKept(s, w, step, v, d);
    } else {
      if d.request.kind == FirstSeen {
        FirstSeenStored(w, d);
      }
      SettledKept(s, w, step, v, d);
    }
  }

  lemma {:induction false} AtMostOnceKept(s: Settings, w: World, step: Step, v: World)
    requires LedgerSound(s, w) && Next(s, w, step, v)
    ensures AtMostOnce(v.deliveries)
  {
    if v.deliveries != w.deliveries {
      StepDelivers(s, w, step, v);
      var n := |w.deliveries|;
      forall i | 0 <= i < n ensures Key(v.deliveries[i].request) != Key(v.deliveries[n].request) {
        assert w.deliveries[i] in w.deliveries;
        NewKey(s, w, step, v, w.deliveries[i]);
      }
    }
  }

  lemma {:induction false} NewDeliverySound(s: Settings, w: World, step: Step, v: World, d: Delivery)
    requires LedgerSound(s, w) && Next(s, w, step, v) && d in v.deliveries && d !in w.deliveries
    ensures Timely(s, v, d) && Kept(v, d)
  {
    NewTimely(s, w, step, v);
    assert v.deliveries == v.deliveries[..|v.deliveries| - 1] + [v.deliveries[|v.deliveries| - 1]];
  }

  lemma {:induction false} LedgerSoundKept(s: Settings, w: World, step: Step, v: World)
    requires RetentionSuffices(s)
    requires LedgerSound(s, w) && FirstSeenBounded(w) && AllSound(w.states) && Next(s, w, step, v)
    ensures LedgerSound(s, v)
  {
    WellKeyedKept(s, w, step, v);
    AtMostOnceKept(s, w, step, v);
    forall d | d in v.deliveries ensures Timely(s, v, d) && (Kept(v, d) || Settled(s, v, d)) {
      if d in w.deliveries {
        DeliveryKept(s, w, step, v, d);
      } else {
        NewDeliverySound(s, w, step, v, d);
      }
    }
  }

  lemma {:induction false} AlwaysLedgerSound(s: Settings, ws: seq<World>, steps: seq<Step>, k: nat)
    requires RetentionSuffices(s)
    requires IsRun(s, ws, steps) && k < |ws|
    ensures LedgerSound(s, ws[k])
  {
    if k > 0 {
      AlwaysLedgerSound(s, ws, steps, k - 1);
      AlwaysConsistent(s, ws, steps, k - 1);
      AlwaysFirstSeenBounded(s, ws, steps, k - 1);
      assert Next(s, ws[k - 1], steps[k - 1], ws[k - 1 + 1]);
      LedgerSoundKept(s, ws[k - 1], steps[k - 1], ws[k]);
    }
  }

  // ----- inactive alerts while the model stays inactive, under any settings -----

  ghost predicate InactiveThroughout(ws: seq<World>, j: nat, k: nat, ref: ModelRef)
    requires j <= k < |ws|
  {
    forall i :: j <= i <= k ==> ref in ws[i].states && ws[i].states[ref].status == Inactive
  }

  lemma {:induction false} AbsenceStep(s: Settings, w: World, step: Step, v: World, ref: ModelRef)
    requires AllSound(w.states) && Next(s, w, step, v)
    requires ref in w.states && w.states[ref].status == Inactive
    requires ref in v.states && v.states[ref].status == Inactive
    ensures v.states[ref].missingSince == w.states[ref].missingSince
  {
    if !Transactional(step) {
      QuietStep(s, w, step, v);
    } else {
      TransactionalStep(s, w, step, v);
      assert Get(v.states, ref) == EffectOn(TransitionOf(step), ref, Get(w.states, ref)).row;
      assert Sound(w.states[ref]);
    }
  }

  /** The absence keeps its start for as long as it lasts. */
  lemma {:induction false} AbsenceKeepsStart(s: Settings, ws: seq<World>, steps: seq<Step>, j: nat, k: nat, ref: ModelRef)
    requires IsRun(s, ws, steps) && j <= k < |ws| && InactiveThroughout(ws, j, k, ref)
    ensures ws[k].states[ref].missingSince == ws[j].states[ref].missingSince
    ensures ws[k].states[ref].missingSince.Some?
    decreases k - j
  {
    AlwaysConsistent(s, ws, steps, k);
    assert Sound(ws[k].states[ref]);
    if j < k {
      AbsenceKeepsStart(s, ws, steps, j, k - 1, ref);
      AlwaysConsistent(s, ws, steps, k - 1);
      assert Next(s, ws[k - 1], steps[k - 1], ws[k - 1 + 1]);
      AbsenceStep(s, ws[k - 1], steps[k - 1], ws[k], ref);
    }
  }

  lemma {:induction false} InactiveRecordStep(s: Settings, w: World, step: Step, v: World, ref: ModelRef, key: string)
    requires AllSound(w.states) && Next(s, w, step, v)
    requires ref in w.states && w.states[ref].status == Inactive
    requires Recorded(w.alerts, key) && w.alerts[key].kind == WentInactive && w.alerts[key].ref == ref
    ensures key in v.alerts && v.alerts[key] == w.alerts[key]
    ensures w.deliveries == v.deliveries
            || (|v.deliveries| == |w.deliveries| + 1 && v.deliveries[..|w.deliveries|] == w.deliveries
                && Key(v.deliveries[|w.deliveries|].request) != key)
  {
    if step.Prune? {
      assert Sound(w.states[ref]);
    } else {
      RecordStays(s, w, step, v, key);
      if v.deliveries != w.deliveries {
        StepDelivers(s, w, step, v);
      }
    }
  }

  lemma {:induction false} RecordedOneMore(s: Settings, ws: seq<World>, steps: seq<Step>, i: nat, ref: ModelRef, key: string)
    requires IsRun(s, ws, steps) && i < |steps|
    requires ref in ws[i].states && ws[i].states[ref].status == Inactive
    requires Recorded(ws[i].alerts, key) && ws[i].alerts[key].kind == WentInactive && ws[i].alerts[key].ref == ref
    ensures key in ws[i + 1].alerts && ws[i + 1].alerts[key] == ws[i].alerts[key]
    ensures var before, after := ws[i].deliveries, ws[i + 1].deliveries;
            before == after || (|after| == |before| + 1 && after[..|before|] == before && Key(after[|before|].request) != key)
  {
    AlwaysConsistent(s, ws, steps, i);
    assert Next(s, ws[i], steps[i], ws[i + 1]);
    InactiveRecordStep(s, ws[i], steps[i], ws[i + 1], ref, key);
  }

  /** None of the deliveries after the first n has the key. */
  ghost predicate NotDeliveredAfter(deliveries: seq<Delivery>, n: nat, key: string) {
    n <= |deliveries| && forall i :: n <= i < |deliveries| ==> Key(deliveries[i].request) != key
  }

  lemma {:induction false} LaterDeliveriesDiffer(before: seq<Delivery>, after: seq<Delivery>, n: nat, key: string)
    requires NotDeliveredAfter(before, n, key)
    requires after == before || (|after| == |before| + 1 && after[..|before|] == before && Key(after[|before|].request) != key)
    ensures NotDeliveredAfter(after, n, key)
  {
    assert after[..|before|] == before;
    forall i | n <= i < |after| ensures Key(after[i].request) != key {
      assert i < |before| ==> after[i] == after[..|before|][i];
    }
  }

  /** A recorded inactive delivery is neither pruned, overwritten nor repeated while its model stays inactive. */
  lemma {:induction false} RecordedInactiveAlertStays(s: Settings, ws: seq<World>, steps: seq<Step>, j: nat, k: nat,
                                                      ref: ModelRef, key: string)
    requires IsRun(s, ws, steps) && j <= k < |ws| && InactiveThroughout(ws, j, k, ref)
    requires Recorded(ws[j].alerts, key)
    requires ws[j].alerts[key].kind == WentInactive && ws[j].alerts[key].ref == ref
    ensures key in ws[k].alerts && ws[k].alerts[key] == ws[j].alerts[key]
    ensures NotDeliveredAfter(ws[k].deliveries, |ws[j].deliveries|, key)
    decreases k - j
  {
    if j < k {
      RecordedInactiveAlertStays(s, ws, steps, j, k - 1, ref, key);
      RecordedOneMore(s, ws, steps, k - 1, ref, key);
      LaterDeliveriesDiffer(ws[k - 1].deliveries, ws[k].deliveries, |ws[j].deliveries|, key);
    }
  }

  /** An inactive alert that is due and not recorded can be attempted, and then is delivered if the notifier accepts it. */
  lemma {:induction false} DueAlertCanBeSent(s: Settings, w: World, ref: ModelRef, queryNow: Time, sentAt: Time)
    requires w.pending == [] && queryNow <= sentAt && w.now < sentAt
    requires DueForAlert(Get(w.states, ref), queryNow, s.absenceAlertAfter)
    requires !Recorded(w.alerts, Key(InactiveRequest(w, ref)))
    ensures var v := Attempt(w, InactiveRequest(w, ref), sentAt, sentAt, Sent);
            && Next(s, w, InactiveAlert(ref, queryNow, sentAt, sentAt, Sent), v)
            && v.deliveries == w.deliveries + [Delivery(InactiveRequest(w, ref), sentAt)]
            && Recorded(v.alerts, Key(InactiveRequest(w, ref)))
  {
  }

  /** A failed attempt blocks later ones exactly when its error text is empty. */
  lemma {:induction false} FailureBlocksIffSilent(w: World, r: AlertRequest, sentAt: Time, recordedAt: Time, error: string)
    requires !Recorded(w.alerts, Key(r))
    ensures var v := Attempt(w, r, sentAt, recordedAt, Failed(error));
            v.deliveries == w.deliveries && (Recorded(v.alerts, Key(r)) <==> error == "")
  {
  }

  /** One step leaves an unrecorded inactive alert unrecorded, unless it attempts that very alert without error text. */
  lemma {:induction false} UnrecordedStep(s: Settings, w: World, step: Step, v: World, ref: ModelRef)
    requires WellKeyed(w) && AllSound(w.states) && Next(s, w, step, v)
    requires ref in w.states && w.states[ref].status == Inactive && w.states[ref].missingSince.Some?
    requires !Recorded(w.alerts, Key(InactiveRequest(w, ref)))
    requires step.InactiveAlert? ==> step.ref != ref || ErrorText(step.outcome) != ""
    ensures !Recorded(v.alerts, Key(InactiveRequest(w, ref)))
  {
    if step.EventAlert? || (step.InactiveAlert? && step.ref != ref) {
      var r, mine := Asked(w, step), InactiveRequest(w, ref);
      assert step.EventAlert? ==> r in w.pending;
      assert step.InactiveAlert? ==> step.ref in w.states;
      assert Key(r) != Key(mine) by {
        if Key(r) == Key(mine) {
          KeysDiffer(r, mine);
        }
      }
    }
  }

  /**
   * So an inactive alert stays retryable for the whole absence: unless some attempt of it was recorded
   * without an error, it is still unrecorded, under the same key.
   */
  lemma {:induction false} UnrecordedStaysRetryable(s: Settings, ws: seq<World>, steps: seq<Step>, j: nat, k: nat, ref: ModelRef)
    requires IsRun(s, ws, steps) && j <= k < |ws| && InactiveThroughout(ws, j, k, ref)
    requires ws[j].states[ref].missingSince.Some?
    requires !Recorded(ws[j].alerts, Key(InactiveRequest(ws[j], ref)))
    requires forall i :: j <= i < k && steps[i].InactiveAlert? ==> steps[i].ref != ref || ErrorText(steps[i].outcome) != ""
    ensures ws[k].states[ref].missingSince.Some?
    ensures InactiveRequest(ws[k], ref) == InactiveRequest(ws[j], ref)
    ensures !Recorded(ws[k].alerts, Key(InactiveRequest(ws[k], ref)))
    decreases k - j
  {
    AbsenceKeepsStart(s, ws, steps, j, k, ref);
    UnrecordedKey(s, ws, steps, j, k, ref, Key(InactiveRequest(ws[j], ref)));
  }

  lemma {:induction false} UnrecordedKey(s: Settings, ws: seq<World>, steps: seq<Step>, j: nat, k: nat, ref: ModelRef, key: string)
    requires IsRun(s, ws, steps) && j <= k < |ws| && InactiveThroughout(ws, j, k, ref)
    requires ws[j].states[ref].missingSince.Some? && key == Key(InactiveRequest(ws[j], ref))
    requires !Recorded(ws[j].alerts, key)
    requires forall i :: j <= i < k && steps[i].InactiveAlert? ==> steps[i].ref != ref || ErrorText(steps[i].outcome) != ""
    ensures !Recorded(ws[k].alerts, key)
    decreases k - j
  {
    if j < k {
      UnrecordedKey(s, ws, steps, j, k - 1, ref, key);
      AbsenceKeepsStart(s, ws, steps, j, k - 1, ref);
      UnrecordedOneMore(s, ws, steps, k - 1, ref);
    }
  }

  lemma {:induction false} UnrecordedOneMore(s: Settings, ws: seq<World>, steps: seq<Step>, i: nat, ref: ModelRef)
    requires IsRun(s, ws, steps) && i < |steps|
    requires ref in ws[i].states && ws[i].states[ref].status == Inactive && ws[i].states[ref].missingSince.Some?
    requires !Recorded(ws[i].alerts, Key(InactiveRequest(ws[i], ref)))
    requires steps[i].InactiveAlert? ==> steps[i].ref != ref || ErrorText(steps[i].outcome) != ""
    ensures !Recorded(ws[i + 1].alerts, Key(InactiveRequest(ws[i], ref)))
  {
    AlwaysConsistent(s, ws, steps, i);
    AlwaysWellKeyed(s, ws, steps, i);
    assert Next(s, ws[i], steps[i], ws[i + 1]);
    UnrecordedStep(s, ws[i], steps[i], ws[i + 1], ref);
  }

  lemma {:induction false} AlwaysWellKeyed(s: Settings, ws: seq<World>, steps: seq<Step>, k: nat)
    requires IsRun(s, ws, steps) && k < |ws|
    ensures WellKeyed(ws[k])
  {
    if k > 0 {
      AlwaysWellKeyed(s, ws, steps, k - 1);
      AlwaysConsistent(s, ws, steps, k - 1);
      assert Next(s, ws[k - 1], steps[k - 1], ws[k - 1 + 1]);
      WellKeyedKept(s, ws[k - 1], steps[k - 1], ws[k]);
    }
  }
}
