/** Which alerts a task asks for, and which rows of the alert ledger it leaves behind. */
module Reports {
  import opened Basics
  import opened Lifecycle
  import opened Text
  import opened Keys
  import opened Monitor

  /** type:provider:model:second, as it is stored in email_alerts.alert_key */
  ghost function Spelled(prefix: string, ref: ModelRef, at: Time): string {
    prefix + ":" + ref.provider + ":" + ref.model + ":" + Decimal(at / 1_000_000_000)
  }

  ghost function PrefixOf(kind: AlertKind): string {
    match kind
    case FirstSeen => "first-seen"
    case CameBack => "returned"
    case WentInactive => "inactive"
  }

  lemma {:induction false} KeySpelled(r: AlertRequest)
    ensures Key(r) == (match r.kind case FirstSeen => "first-seen" case CameBack => "returned" case WentInactive => "inactive")
                      + ":" + r.ref.provider + ":" + r.ref.model + ":" + Decimal(r.at / 1_000_000_000)
    ensures Key(r) == Spelled(PrefixOf(r.kind), r.ref, r.at)
  {
  }

  // ----- what a refresh asks for -----

  lemma {:induction false} RequestsMean(written: seq<ModelEvent>, s: Settings, r: AlertRequest)
    ensures r in Requests(written, s) <==>
              exists i :: 0 <= i < |written| && written[i].ref == r.ref && written[i].observedAt == r.at
                          && ((r.kind == FirstSeen && written[i].eventType == Added)
                              || (r.kind == CameBack && written[i].eventType == Returned
                                  && written[i].missingFor >= s.absenceAlertAfter))
  {
    if written != [] {
      var init, last := written[..|written| - 1], written[|written| - 1];
      assert written == init + [last];
      RequestsMean(init, s, r);
      assert forall i :: 0 <= i < |init| ==> written[i] == init[i];
      if r in RequestsFor(last, s) {
        assert written[|init|] == last;
      }
    }
  }

  /** The model is listed and new, or listed again after an absence of at least the threshold. */
  ghost predicate Reportable(kind: AlertKind, observed: seq<ObservedModel>, id: string, was: Option<ModelState>,
                             now: Time, threshold: int)
  {
    && Listed(observed, id)
    && match kind
       case FirstSeen => was.None?
       case CameBack => was.Some? && was.value.missingSince.Some? && now - was.value.missingSince.value >= threshold
       case WentInactive => false
  }

  /** A refresh asks for exactly the first-seen and returned alerts of what it observed, all of its own time. */
  lemma {:induction false} RefreshRequests(provider: string, observed: seq<ObservedModel>, now: Time,
                                           before: map<ModelRef, ModelState>, after: map<ModelRef, ModelState>,
                                           written: seq<ModelEvent>, s: Settings, r: AlertRequest)
    requires ObservationOutcome(provider, observed, now, before, after, written)
    ensures r in Requests(written, s) <==>
              && r.at == now && r.ref.provider == provider
              && Reportable(r.kind, observed, r.ref.model, Get(before, r.ref), now, s.absenceAlertAfter)
  {
    RequestsMean(written, s, r);
    if r.ref.provider != provider {
      assert Silent(written, r.ref);
    } else if !Listed(observed, r.ref.model) {
      assert UnlistedOutcome(r.ref, Get(before, r.ref), now, Get(after, r.ref), written);
    } else {
      var i :| 0 <= i < |observed| && observed[i].id == r.ref.model;
      ListedRequest(r, Get(before, r.ref), observed[i], now, Get(after, r.ref), written, s);
    }
  }

  lemma {:induction false} ListedRequest(r: AlertRequest, was: Option<ModelState>, seen: ObservedModel, now: Time,
                                         row: Option<ModelState>, written: seq<ModelEvent>, s: Settings)
    requires ListedOutcome(r.ref, was, seen, now, row, written)
    ensures r in Requests(written, s) <==>
              && r.at == now
              && match r.kind
                 case FirstSeen => was.None?
                 case CameBack => was.Some? && was.value.missingSince.Some?
                                  && now - was.value.missingSince.value >= s.absenceAlertAfter
                 case WentInactive => false
  {
    RequestsMean(written, s, r);
  }

  // ----- what a task leaves in the ledger -----

  /** The key is on record: with a delivery made before, or with an attempt after the given time. */
  predicate AttemptedSince(before: map<string, AlertRow>, after: map<string, AlertRow>, key: string, since: Time) {
    key in after && ((key in before && before[key].error == "") || after[key].sentAt > since)
  }

  /** The requested alerts were attempted or had been delivered, and no other row of the ledger moved. */
  ghost predicate Attempted(before: map<string, AlertRow>, after: map<string, AlertRow>, asked: seq<AlertRequest>, since: Time) {
    && (forall key :: key in before ==> key in after)
    && (forall r :: r in asked ==> AttemptedSince(before, after, Key(r), since))
    && (forall key :: key in after ==>
          (key in before && after[key] == before[key]) || AskedRow(asked, key, after[key], since))
  }

  /** The row was written for one of the requests. */
  ghost predicate AskedRow(asked: seq<AlertRequest>, key: string, row: AlertRow, since: Time) {
    row.sentAt > since && exists r :: r in asked && key == Key(r) && row.kind == r.kind && row.ref == r.ref
  }

  lemma {:induction false} NothingAttempted(alerts: map<string, AlertRow>, since: Time)
    ensures Attempted(alerts, alerts, [], since)
  {
  }

  lemma {:induction false} AttemptedMore(before: map<string, AlertRow>, w: World, asked: seq<AlertRequest>, r: AlertRequest,
                                         sentAt: Time, recordedAt: Time, outcome: Outcome, since: Time)
    requires Attempted(before, w.alerts, asked, since) && sentAt > since
    ensures Attempted(before, Attempt(w, r, sentAt, recordedAt, outcome).alerts, asked + [r], since)
  {
    var after := Attempt(w, r, sentAt, recordedAt, outcome).alerts;
    forall key | key in after
      ensures (key in before && after[key] == before[key]) || AskedRow(asked + [r], key, after[key], since)
    {
      if key == Key(r) && !Recorded(w.alerts, Key(r)) {
        assert r in asked + [r];
      } else if !(key in before && after[key] == before[key]) {
        var q :| q in asked && key == Key(q) && after[key].kind == q.kind && after[key].ref == q.ref;
        assert q in asked + [r];
      }
    }
  }

  // ----- in the terms of the tables -----

  /** The alert of each long absence is on record, and no other row of the ledger moved. */
  ghost predicate AbsencesReported(before: map<string, AlertRow>, after: map<string, AlertRow>,
                                   states: map<ModelRef, ModelState>, now: Time, threshold: int, since: Time)
  {
    && (forall key :: key in before ==> key in after)
    && (forall ref :: DueForAlert(Get(states, ref), now, threshold) ==>
          AttemptedSince(before, after, Spelled("inactive", ref, states[ref].missingSince.value), since))
    && (forall key :: key in after ==>
          || (key in before && after[key] == before[key])
          || (after[key].sentAt > since && AbsenceRow(states, key, after[key], now, threshold)))
  }

  ghost predicate AbsenceRow(states: map<ModelRef, ModelState>, key: string, row: AlertRow, now: Time, threshold: int) {
    && row.kind == WentInactive && DueForAlert(Get(states, row.ref), now, threshold)
    && key == Spelled("inactive", row.ref, states[row.ref].missingSince.value)
  }

  /** The row announces a listed model that is new or has returned after a long absence. */
  ghost predicate ArrivalRow(provider: string, ids: seq<string>, states: map<ModelRef, ModelState>, key: string, row: AlertRow,
                             now: Time, threshold: int)
  {
    && row.ref.provider == provider && row.ref.model in ids
    && ((row.ref !in states && row.kind == FirstSeen && key == Spelled("first-seen", row.ref, now))
        || (row.ref in states && states[row.ref].missingSince.Some? && now - states[row.ref].missingSince.value >= threshold
            && row.kind == CameBack && key == Spelled("returned", row.ref, now)))
  }

  /**
   * What a stored refresh leaves in the ledger: each new model, each model back after a long absence and
   * each long absence has its alert on record, and no other row moved.
   */
  ghost predicate RefreshReported(before: map<string, AlertRow>, after: map<string, AlertRow>, provider: string,
                                  ids: seq<string>, was: map<ModelRef, ModelState>, states: map<ModelRef, ModelState>,
                                  now: Time, threshold: int, since: Time)
  {
    && (forall key :: key in before ==> key in after)
    && (forall id :: id in ids && ModelRef(provider, id) !in was ==>
          AttemptedSince(before, after, Spelled("first-seen", ModelRef(provider, id), now), since))
    && (forall id :: id in ids && ModelRef(provider, id) in was && was[ModelRef(provider, id)].missingSince.Some?
                     && now - was[ModelRef(provider, id)].missingSince.value >= threshold ==>
          AttemptedSince(before, after, Spelled("returned", ModelRef(provider, id), now), since))
    && (forall ref :: DueForAlert(Get(states, ref), now, threshold) ==>
          AttemptedSince(before, after, Spelled("inactive", ref, states[ref].missingSince.value), since))
    && (forall key :: key in after ==>
          || (key in before && after[key] == before[key])
          || (after[key].sentAt > since && (ArrivalRow(provider, ids, was, key, after[key], now, threshold)
                                            || AbsenceRow(states, key, after[key], now, threshold))))
  }

  /** The alert of a long absence. */
  function AbsenceRequest(states: map<ModelRef, ModelState>, ref: ModelRef): AlertRequest {
    AlertRequest(WentInactive, ref,
                 if ref in states && states[ref].missingSince.Some? then states[ref].missingSince.value else 0)
  }

  function AbsenceRequests(states: map<ModelRef, ModelState>, refs: seq<ModelRef>): seq<AlertRequest> {
    seq(|refs|, i requires 0 <= i < |refs| => AbsenceRequest(states, refs[i]))
  }

  lemma {:induction false} AbsencesMean(before: map<string, AlertRow>, after: map<string, AlertRow>,
                                        states: map<ModelRef, ModelState>, due: seq<ModelRef>, now: Time, threshold: int,
                                        since: Time)
    requires Attempted(before, after, AbsenceRequests(states, due), since)
    requires forall ref :: ref in due <==> DueForAlert(Get(states, ref), now, threshold)
    ensures AbsencesReported(before, after, states, now, threshold, since)
  {
    var asked := AbsenceRequests(states, due);
    forall ref | DueForAlert(Get(states, ref), now, threshold)
      ensures AttemptedSince(before, after, Spelled("inactive", ref, states[ref].missingSince.value), since)
    {
      var j :| 0 <= j < |due| && due[j] == ref;
      assert asked[j] in asked;
      KeySpelled(asked[j]);
    }
    forall key | key in after && !(key in before && after[key] == before[key])
      ensures after[key].sentAt > since && AbsenceRow(states, key, after[key], now, threshold)
    {
      var r :| r in asked && key == Key(r) && after[key].kind == r.kind && after[key].ref == r.ref;
      var j :| 0 <= j < |due| && asked[j] == r;
      assert due[j] in due;
      KeySpelled(r);
    }
  }

  ghost predicate Arrivals(provider: string, ids: seq<string>, was: map<ModelRef, ModelState>, asked: seq<AlertRequest>,
                           now: Time, threshold: int)
  {
    forall r :: r in asked <==>
      && r.at == now && r.ref.provider == provider && r.ref.model in ids
      && match r.kind
         case FirstSeen => r.ref !in was
         case CameBack => r.ref in was && was[r.ref].missingSince.Some? && now - was[r.ref].missingSince.value >= threshold
         case WentInactive => false
  }

  lemma {:induction false} ArrivalsMean(before: map<string, AlertRow>, after: map<string, AlertRow>, provider: string,
                                        ids: seq<string>, was: map<ModelRef, ModelState>, asked: seq<AlertRequest>,
                                        now: Time, threshold: int, since: Time)
    requires Attempted(before, after, asked, since) && Arrivals(provider, ids, was, asked, now, threshold)
    ensures forall id :: id in ids && ModelRef(provider, id) !in was ==>
              AttemptedSince(before, after, Spelled("first-seen", ModelRef(provider, id), now), since)
    ensures forall id :: id in ids && ModelRef(provider, id) in was && was[ModelRef(provider, id)].missingSince.Some?
                         && now - was[ModelRef(provider, id)].missingSince.value >= threshold ==>
              AttemptedSince(before, after, Spelled("returned", ModelRef(provider, id), now), since)
    ensures forall key :: key in after ==>
              || (key in before && after[key] == before[key])
              || (after[key].sentAt > since && ArrivalRow(provider, ids, was, key, after[key], now, threshold))
  {
    forall id | id in ids && ModelRef(provider, id) !in was
      ensures AttemptedSince(before, after, Spelled("first-seen", ModelRef(provider, id), now), since)
    {
      var r := AlertRequest(FirstSeen, ModelRef(provider, id), now);
      assert r in asked;
      KeySpelled(r);
    }
    forall id | id in ids && ModelRef(provider, id) in was && was[ModelRef(provider, id)].missingSince.Some?
                && now - was[ModelRef(provider, id)].missingSince.value >= threshold
      ensures AttemptedSince(before, after, Spelled("returned", ModelRef(provider, id), now), since)
    {
      var r := AlertRequest(CameBack, ModelRef(provider, id), now);
      assert r in asked;
      KeySpelled(r);
    }
    forall key | key in after && !(key in before && after[key] == before[key])
      ensures after[key].sentAt > since && ArrivalRow(provider, ids, was, key, after[key], now, threshold)
    {
      var r :| r in asked && key == Key(r) && after[key].kind == r.kind && after[key].ref == r.ref;
      KeySpelled(r);
    }
  }

  /** Arrivals first, then absences: together the ledger of a refresh. */
  lemma {:induction false} RefreshMeans(a: map<string, AlertRow>, b: map<string, AlertRow>, c: map<string, AlertRow>,
                                        provider: string, ids: seq<string>, was: map<ModelRef, ModelState>,
                                        states: map<ModelRef, ModelState>, asked: seq<AlertRequest>, now: Time,
                                        threshold: int, stored: Time, since: Time, later: Time)
    requires Attempted(a, b, asked, stored) && Arrivals(provider, ids, was, asked, now, threshold)
    requires AbsencesReported(b, c, states, now, threshold, later) && since <= stored && since <= later
    ensures RefreshReported(a, c, provider, ids, was, states, now, threshold, since)
  {
    ArrivalsMean(a, b, provider, ids, was, asked, now, threshold, stored);
    forall key | AttemptedSince(a, b, key, stored) ensures AttemptedSince(a, c, key, since) {
    }
  }
}
