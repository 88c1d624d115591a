/**
 * How long retention must be for alert keys to be delivered at most once. A key names its
 * moment by the second, so a delivery pruned within that second can be repeated.
 */
module AlertRetention {
  import opened Basics
  import opened Lifecycle
  import opened PlanCache
  import opened Keys
  import opened Monitor
  import opened AlertLedger

  /** No run under these settings delivers an alert key twice. */
  ghost predicate NeverTwice(s: Settings) {
    forall ws: seq<World>, steps: seq<Step> :: IsRun(s, ws, steps) ==> AtMostOnce(ws[|steps|].deliveries)
  }

  lemma {:induction false} SufficientRetention(s: Settings)
    requires RetentionSuffices(s)
    ensures NeverTwice(s)
  {
    forall ws: seq<World>, steps: seq<Step> | IsRun(s, ws, steps) ensures AtMostOnce(ws[|steps|].deliveries) {
      AlwaysLedgerSound(s, ws, steps, |steps|);
    }
  }

  // ----- a model that returns twice within one second, with a prune in between -----

  const M := ModelRef("p", "m")
  const SEEN := ObservedModel("m", Chat, false, "")
  const ITEM := PlanItem(M, Chat, false)

  function Event(t: EventType, at: Time, missingFor: int): ModelEvent {
    ModelEvent(M, t, Chat, at, true, missingFor)
  }

  /** The only row of the inventory while the model is present. */
  function Present(at: Time): ModelState {
    ModelState(Chat, false, Active, 1, at, None, "", Some(at))
  }

  /** The same row after the provider failed. */
  function Absent(lastSeen: Time, at: Time): ModelState {
    ModelState(Chat, false, Inactive, 1, lastSeen, Some(at), "down", Some(at))
  }

  function Row(st: ModelState): map<ModelRef, ModelState> { map[M := st] }

  /** A transaction that only concerns the model M. */
  lemma {:induction false} OnlyRowCommits(t: Transition, before: map<ModelRef, ModelState>, st: ModelState, e: ModelEvent)
    requires forall ref :: ref in before ==> ref == M
    requires forall ref :: ref != M ==> EffectOn(t, ref, None) == Effect(None, [])
    requires EffectOn(t, M, Get(before, M)) == Effect(Some(st), [e])
    requires e.changed && e.ref == M
    ensures Committed(t, before, Row(st), [e])
  {
    assert [e][..0] == [];
    forall ref
      ensures Get(Row(st), ref) == EffectOn(t, ref, Get(before, ref)).row
      ensures Changes([e], ref) == EffectOn(t, ref, Get(before, ref)).events
    {
      if ref != M {
        assert EffectOn(t, ref, None) == Effect(None, []);
      }
    }
  }

  /** Nothing but the seen model is in the inventory. */
  lemma {:induction false} SeenAlone(at: Time, ref: ModelRef, row: Option<ModelState>)
    ensures ref == M ==> EffectOn(Observation("p", [SEEN], at), ref, row) == ObservedRow(M, row, SEEN, at)
    ensures ref != M ==> EffectOn(Observation("p", [SEEN], at), ref, None) == Effect(None, [])
  {
    assert [SEEN][..0] == [] && FindObserved([], ref.model) == None;
    assert FindObserved([SEEN], ref.model) == if ref.model == "m" then Some(SEEN) else None;
    assert ref == M <==> ref.provider == "p" && ref.model == "m";
  }

  lemma {:induction false} AddedOnce()
    ensures Committed(Observation("p", [SEEN], 1), map[], Row(Present(1)), [Event(Added, 1, 0)])
  {
    forall ref ensures ref != M ==> EffectOn(Observation("p", [SEEN], 1), ref, None) == Effect(None, []) {
      SeenAlone(1, ref, None);
    }
    SeenAlone(1, M, None);
    OnlyRowCommits(Observation("p", [SEEN], 1), map[], Present(1), Event(Added, 1, 0));
  }

  lemma {:induction false} ReturnedOnce(lastSeen: Time, since: Time, at: Time)
    ensures Committed(Observation("p", [SEEN], at), Row(Absent(lastSeen, since)), Row(Present(at)),
                      [Event(Returned, at, at - since)])
  {
    forall ref ensures ref != M ==> EffectOn(Observation("p", [SEEN], at), ref, None) == Effect(None, []) {
      SeenAlone(at, ref, None);
    }
    SeenAlone(at, M, Some(Absent(lastSeen, since)));
    OnlyRowCommits(Observation("p", [SEEN], at), Row(Absent(lastSeen, since)), Present(at), Event(Returned, at, at - since));
  }

  lemma {:induction false} FailedOnce(lastSeen: Time, at: Time)
    ensures Committed(ProviderDeactivation("p", at, "down"), Row(Present(lastSeen)), Row(Absent(lastSeen, at)),
                      [Event(TurnedInactive, at, 0)])
  {
    OnlyRowCommits(ProviderDeactivation("p", at, "down"), Row(Present(lastSeen)), Absent(lastSeen, at),
                   Event(TurnedInactive, at, 0));
  }

  /** The world after a refresh that saw the model, before a failure or a return. */
  function Refreshed(w: World, at: Time, e: ModelEvent, r: AlertRequest): World {
    var snapshot := Snapshot("p", at, [SEEN]);
    w.(now := at, states := Row(Present(at)), snapshots := w.snapshots + [snapshot], archive := w.archive + [snapshot],
       events := w.events + [e], journal := w.journal + [e], plan := [ITEM], pending := [r])
  }

  function Down(w: World, lastSeen: Time, at: Time): World {
    var e := Event(TurnedInactive, at, 0);
    w.(now := at, states := Row(Absent(lastSeen, at)), events := w.events + [e], journal := w.journal + [e], plan := [])
  }

  /** Attempting the only pending request. */
  function Mailed(w: World, at: Time): World
    requires w.pending != []
  {
    Attempt(w.(pending := w.pending[1..]), w.pending[0], at, at, Sent)
  }

  lemma {:induction false} RefreshStep(s: Settings, w: World, at: Time, e: ModelEvent, r: AlertRequest)
    requires w.now < at && w.pending == [] && w.plan == []
    requires Committed(Observation("p", [SEEN], at), w.states, Row(Present(at)), [e])
    requires RequestsFor(e, s) == [r]
    ensures Next(s, w, Refresh("p", [SEEN], at, [e]), Refreshed(w, at, e, r))
  {
    assert [e][..0] == [] && [SEEN][..0] == [];
    assert Requests([e], s) == [] + [r] == [r];
    assert Requests([], s) == [];
    assert Reloaded([], "p", [SEEN]) == [ITEM] by {
      assert BuildModelPlan("p", [SEEN]) == BuildModelPlan("p", []) + [ITEM];
    }
  }

  lemma {:induction false} DownStep(s: Settings, w: World, lastSeen: Time, at: Time)
    requires w.now < at && w.pending == [] && w.plan == [ITEM] && w.states == Row(Present(lastSeen))
    ensures Next(s, w, ProviderDown("p", at, "down", [Event(TurnedInactive, at, 0)]), Down(w, lastSeen, at))
  {
    FailedOnce(lastSeen, at);
    assert [ITEM][..0] == [];
    assert WithoutProvider([ITEM], "p") == [];
  }

  const FIRST := AlertRequest(FirstSeen, M, 1)
  const AGAIN := SECOND            // the first return
  function Back(at: Time): AlertRequest { AlertRequest(CameBack, M, at) }

  /** Between two lives of the model: absent, nothing pending, nothing planned. */
  predicate Resting(w: World, lastSeen: Time, since: Time, now: Time) {
    w.now == now && w.pending == [] && w.plan == [] && w.states == Row(Absent(lastSeen, since))
  }

  /** A mail that finds no record goes out. */
  lemma {:induction false} MailStep(s: Settings, w: World, at: Time)
    requires w.pending != [] && w.now < at && !Recorded(w.alerts, Key(w.pending[0]))
    ensures Next(s, w, EventAlert(at, at, Sent), Mailed(w, at))
    ensures Mailed(w, at).deliveries == w.deliveries + [Delivery(w.pending[0], at)]
    ensures Mailed(w, at).alerts
            == w.alerts[Key(w.pending[0]) := AlertRow(w.pending[0].kind, w.pending[0].ref, at, "")]
    ensures Mailed(w, at).states == w.states && Mailed(w, at).plan == w.plan
    ensures Mailed(w, at).pending == w.pending[1..] && Mailed(w, at).now == at
  {
  }

  lemma {:induction false} Extended(s: Settings, ws: seq<World>, steps: seq<Step>, step: Step, v: World)
    requires IsRun(s, ws, steps) && Next(s, ws[|steps|], step, v)
    ensures IsRun(s, ws + [v], steps + [step])
  {
  }

  /** A run goes on with one life of the model: refresh, mail, provider failure. */
  lemma {:induction false} OneLife(s: Settings, ws: seq<World>, steps: seq<Step>, at: Time, e: ModelEvent, r: AlertRequest)
      returns (ws': seq<World>, steps': seq<Step>)
    requires IsRun(s, ws, steps)
    requires var w := ws[|steps|];
             && w.now < at && w.pending == [] && w.plan == []
             && Committed(Observation("p", [SEEN], at), w.states, Row(Present(at)), [e])
             && RequestsFor(e, s) == [r] && !Recorded(w.alerts, Key(r)) && r.ref == M
    ensures IsRun(s, ws', steps')
    ensures var w, c := ws[|steps|], ws'[|steps'|];
            && Resting(c, at, at + 2, at + 2)
            && c.deliveries == w.deliveries + [Delivery(r, at + 1)]
            && c.alerts == w.alerts[Key(r) := AlertRow(r.kind, M, at + 1, "")]
  {
    var w := ws[|steps|];
    var a := Refreshed(w, at, e, r);
    RefreshStep(s, w, at, e, r);
    var b := Mailed(a, at + 1);
    MailStep(s, a, at + 1);
    var c := Down(b, at, at + 2);
    DownStep(s, b, at, at + 2);
    var s1, s2 := Refresh("p", [SEEN], at, [e]), EventAlert(at + 1, at + 1, Sent);
    var s3 := ProviderDown("p", at + 2, "down", [Event(TurnedInactive, at + 2, 0)]);
    Extended(s, ws, steps, s1, a);
    Extended(s, ws + [a], steps + [s1], s2, b);
    Extended(s, ws + [a] + [b], steps + [s1] + [s2], s3, c);
    ws', steps' := ws + [a] + [b] + [c], steps + [s1] + [s2] + [s3];
  }

  /** The run goes on with a prune that drops every alert row. */
  lemma {:induction false} PruneForgets(s: Settings, ws: seq<World>, steps: seq<Step>, last: Time)
      returns (ws': seq<World>, steps': seq<Step>)
    requires IsRun(s, ws, steps) && 0 < s.history && Resting(ws[|steps|], last - 2, last, last)
    requires var w := ws[|steps|];
             forall key :: key in w.alerts ==> w.alerts[key].sentAt < last && w.alerts[key].kind != WentInactive
    ensures IsRun(s, ws', steps')
    ensures var w, v := ws[|steps|], ws'[|steps'|];
            Resting(v, last - 2, last, last + s.history) && v.alerts == map[] && v.deliveries == w.deliveries
  {
    var w := ws[|steps|];
    var v := Pruned(w, last).(now := last + s.history);
    assert v.alerts == map[];
    Extended(s, ws, steps, Prune(last + s.history), v);
    ws', steps' := ws + [v], steps + [Prune(last + s.history)];
  }

  /** A run whose only life so far ended at 3. */
  lemma {:induction false} FirstLife(s: Settings) returns (ws: seq<World>, steps: seq<Step>)
    ensures IsRun(s, ws, steps)
    ensures var w := ws[|steps|];
            && Resting(w, 1, 3, 3) && w.deliveries == [Delivery(FIRST, 2)]
            && w.alerts == map[Key(FIRST) := AlertRow(FirstSeen, M, 2, "")]
  {
    AddedOnce();
    ws, steps := OneLife(s, [INITIAL], [], 1, Event(Added, 1, 0), FIRST);
    assert ws[|steps|].deliveries == [] + [Delivery(FIRST, 2)];
  }

  /** A run whose second life ends with a mailed return at AGAIN. */
  lemma {:induction false} TwoLives(s: Settings) returns (ws: seq<World>, steps: seq<Step>)
    requires s.absenceAlertAfter <= SECOND - 3
    ensures IsRun(s, ws, steps)
    ensures var w := ws[|steps|];
            && Resting(w, AGAIN, AGAIN + 2, AGAIN + 2)
            && |w.deliveries| == 2 && w.deliveries[1].request == Back(AGAIN)
            && forall key :: key in w.alerts ==> w.alerts[key].sentAt < AGAIN + 2 && w.alerts[key].kind != WentInactive
  {
    KeysApart(FIRST, Back(AGAIN));
    ws, steps := FirstLife(s);
    ReturnedOnce(1, 3, AGAIN);
    assert RequestsFor(Event(Returned, AGAIN, AGAIN - 3), s) == [Back(AGAIN)];
    ws, steps := OneLife(s, ws, steps, AGAIN, Event(Returned, AGAIN, AGAIN - 3), Back(AGAIN));
  }

  /** When the second return happens: after the prune, and after an absence long enough to be reported. */
  function SecondReturn(s: Settings): Time {
    AGAIN + Max(s.history + 3, s.absenceAlertAfter + 2)
  }

  /** Under any other settings some run delivers a key twice. */
  lemma {:induction false} ShortRetentionRepeats(s: Settings)
    requires !RetentionSuffices(s)
    ensures !NeverTwice(s)
  {
    var ws, steps := ThreeLives(s);
    var sent := ws[|steps|].deliveries;
    SameSecond(s);
    assert Key(sent[1].request) == Key(sent[2].request);
  }

  lemma {:induction false} ThreeLives(s: Settings) returns (ws: seq<World>, steps: seq<Step>)
    requires !RetentionSuffices(s)
    ensures IsRun(s, ws, steps)
    ensures var sent := ws[|steps|].deliveries;
            |sent| == 3 && sent[1].request == Back(AGAIN) && sent[2].request == Back(SecondReturn(s))
  {
    ws, steps := TwoLives(s);
    ws, steps := PruneForgets(s, ws, steps, AGAIN + 2);
    var at := SecondReturn(s);
    var e := Event(Returned, at, at - (AGAIN + 2));
    ReturnedOnce(AGAIN, AGAIN + 2, at);
    assert RequestsFor(e, s) == [Back(at)];
    ws, steps := OneLife(s, ws, steps, at, e, Back(at));
  }

  lemma {:induction false} SameSecond(s: Settings)
    requires !RetentionSuffices(s)
    ensures Key(Back(AGAIN)) == Key(Back(SecondReturn(s)))
  {
    assert Unix(AGAIN) == Unix(SecondReturn(s));
  }

  lemma {:induction false} KeysApart(r: AlertRequest, q: AlertRequest)
    requires r.kind == FirstSeen && q.kind == CameBack && Slug(r.ref.provider) && Slug(q.ref.provider)
    ensures Key(r) != Key(q)
  {
    if Key(r) == Key(q) {
      KeysDiffer(r, q);
    }
  }

  /**
   * At-most-once delivery, exactly: without pruning, with a window that falls short of a second by
   * at most three clock ticks, or with an absence threshold that falls short by at most two.
   */
  lemma {:induction false} NeverTwiceIff(s: Settings)
    ensures (forall ws: seq<World>, steps: seq<Step> :: IsRun(s, ws, steps) ==>
               forall i, j :: 0 <= i < j < |ws[|steps|].deliveries| ==>
                 Key(ws[|steps|].deliveries[i].request) != Key(ws[|steps|].deliveries[j].request))
            <==> s.history <= 0 || s.history >= 999_999_997 || s.absenceAlertAfter >= 999_999_998
  {
    if RetentionSuffices(s) {
      SufficientRetention(s);
    } else {
      ShortRetentionRepeats(s);
    }
  }
}
