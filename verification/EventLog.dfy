/**
 * The event log as a second representation of the inventory: folding the `changed`
 * rows of model_events, oldest first, rebuilds model_states.
 */
module EventLog {
  import opened Basics
  import opened Lifecycle

  /** The part of a model row that the lifecycle events determine. */
  datatype Replayed = Replayed(status: Status, capability: Capability, firstSeenAt: Time, missingSince: Option<Time>)

  /** Reading one lifecycle event, knowing nothing but the events before it. */
  function Read(prev: Option<Replayed>, e: ModelEvent): Option<Replayed> {
    match e.eventType
    case Added => Some(Replayed(Active, e.capability, e.observedAt, None))
    case Diagnostic(_) => prev
    case _ =>
      if prev.None? then None else
      var r := prev.value;
      match e.eventType
      case Returned => Some(r.(status := Active, capability := e.capability, missingSince := None))
      case CapabilityChanged => Some(r.(capability := e.capability))
      case _ => Some(r.(status := Inactive, missingSince := Some(e.observedAt)))
  }

  function Stored(table: map<ModelRef, Replayed>, ref: ModelRef, r: Option<Replayed>): map<ModelRef, Replayed> {
    if r.Some? then table[ref := r.value] else table
  }

  /** Replaying a whole log, with the events of all models interleaved. */
  function Replay(log: seq<ModelEvent>): map<ModelRef, Replayed> {
    if log == [] then map[]
    else
      var e := log[|log| - 1];
      var table := Replay(log[..|log| - 1]);
      if e.changed then Stored(table, e.ref, Read(Get(table, e.ref), e)) else table
  }

  /** Replaying the history of a single model. */
  function ReplayModel(history: seq<ModelEvent>): Option<Replayed> {
    if history == [] then None
    else Read(ReplayModel(history[..|history| - 1]), history[|history| - 1])
  }

  /** Models do not disturb each other: replay can be done model by model. */
  lemma {:induction false} ReplayIsPerModel(log: seq<ModelEvent>, ref: ModelRef)
    ensures Get(Replay(log), ref) == ReplayModel(Changes(log, ref))
  {
    if log != [] {
      var init, e := log[..|log| - 1], log[|log| - 1];
      ReplayIsPerModel(init, ref);
      var history := Changes(init, ref);
      if e.changed && e.ref == ref {
        assert (history + [e])[..|history|] == history;
      } else {
        assert history + [] == history;
      }
    }
  }

  /** What the event log can know about a row of model_states. */
  function View(row: Option<ModelState>): Option<Replayed> {
    if row.None? then None
    else Some(Replayed(row.value.status, NormalizedCapability(row.value.capability),
                       row.value.firstSeenAt, row.value.missingSince))
  }

  /** The refinement: the log replays to the table, for every model. */
  ghost predicate LogMatches(states: map<ModelRef, ModelState>, log: seq<ModelEvent>) {
    forall ref :: ReplayModel(Changes(log, ref)) == View(Get(states, ref))
  }

  /** Spelled out over tables instead of single rows. */
  lemma {:induction false} LogMatchesMeans(states: map<ModelRef, ModelState>, log: seq<ModelEvent>)
    requires LogMatches(states, log)
    ensures Replay(log).Keys == states.Keys
    ensures forall ref :: ref in states ==>
              && Replay(log)[ref].status == states[ref].status
              && Replay(log)[ref].capability == NormalizedCapability(states[ref].capability)
              && Replay(log)[ref].firstSeenAt == states[ref].firstSeenAt
              && Replay(log)[ref].missingSince == states[ref].missingSince
  {
    forall ref ensures Get(Replay(log), ref) == View(Get(states, ref)) {
      ReplayIsPerModel(log, ref);
      assert ReplayModel(Changes(log, ref)) == View(Get(states, ref));
    }
    forall ref ensures ref in Replay(log) <==> ref in states {
      assert Get(Replay(log), ref) == View(Get(states, ref));
    }
    forall ref | ref in states ensures Get(Replay(log), ref) == View(Get(states, ref)) { }
  }

  lemma {:induction false} ReplayStep(history: seq<ModelEvent>, more: seq<ModelEvent>)
    requires |more| <= 1
    ensures ReplayModel(history + more) ==
            if more == [] then ReplayModel(history) else Read(ReplayModel(history), more[0])
  {
    if more == [] {
      assert history + more == history;
    } else {
      assert (history + more)[..|history + more| - 1] == history;
    }
  }

  /** One model, one transaction: its longer history still replays to its new row. */
  lemma {:induction false} RowMatchKept(t: Transition, ref: ModelRef, row: Option<ModelState>, history: seq<ModelEvent>)
    requires row.Some? ==> Sound(row.value)
    requires ReplayModel(history) == View(row)
    ensures ReplayModel(history + EffectOn(t, ref, row).events) == View(EffectOn(t, ref, row).row)
  {
    var effect := EffectOn(t, ref, row);
    assert |effect.events| <= 1;
    ReplayStep(history, effect.events);
  }

  /** One committed transaction keeps the log in step with the table. */
  lemma {:induction false} LogMatchesKept(t: Transition, before: map<ModelRef, ModelState>,
                                          after: map<ModelRef, ModelState>,
                                          log: seq<ModelEvent>, written: seq<ModelEvent>)
    requires AllSound(before) && LogMatches(before, log)
    requires Committed(t, before, after, written)
    ensures LogMatches(after, log + written)
  {
    forall ref ensures ReplayModel(Changes(log + written, ref)) == View(Get(after, ref)) {
      var row := Get(before, ref);
      ChangesAppend(log, written, ref);
      assert Changes(written, ref) == EffectOn(t, ref, row).events;
      assert Get(after, ref) == EffectOn(t, ref, row).row;
      assert row.Some? ==> Sound(row.value);
      RowMatchKept(t, ref, row, Changes(log, ref));
    }
  }

  // ----- the shape of a model's history -----

  function Kinds(history: seq<ModelEvent>): seq<EventType> {
    seq(|history|, i requires 0 <= i < |history| => history[i].eventType)
  }

  /** Drops the leading capability_changed*. */
  function AfterCapabilityChanges(kinds: seq<EventType>): (rest: seq<EventType>)
    ensures |rest| <= |kinds|
  {
    if kinds != [] && kinds[0] == CapabilityChanged then AfterCapabilityChanges(kinds[1..]) else kinds
  }

  /** (inactive returned capability_changed*)* [inactive] */
  predicate Absences(kinds: seq<EventType>)
    decreases |kinds|
  {
    || kinds == []
    || kinds == [TurnedInactive]
    || (|kinds| >= 2 && kinds[0] == TurnedInactive && kinds[1] == Returned
        && Absences(AfterCapabilityChanges(kinds[2..])))
  }

  /** added capability_changed* (inactive returned capability_changed*)* [inactive], or nothing yet */
  predicate IsHistory(kinds: seq<EventType>) {
    kinds == [] || (kinds[0] == Added && Absences(AfterCapabilityChanges(kinds[1..])))
  }

  /** Which event may come next. */
  predicate MayFollow(kinds: seq<EventType>, next: EventType) {
    if kinds == [] then next == Added
    else if kinds[|kinds| - 1] == TurnedInactive then next == Returned
    else next == CapabilityChanged || next == TurnedInactive
  }

  lemma {:induction false} ChangesThenOne(kinds: seq<EventType>, next: EventType)
    requires AfterCapabilityChanges(kinds) == []
    ensures AfterCapabilityChanges(kinds + [next]) == if next == CapabilityChanged then [] else [next]
  {
    if kinds == [] {
      assert kinds + [next] == [next];
      assert [next][1..] == [];
    } else {
      ChangesThenOne(kinds[1..], next);
      assert (kinds + [next])[1..] == kinds[1..] + [next];
    }
  }

  lemma {:induction false} ChangesThenMore(kinds: seq<EventType>, next: EventType)
    requires AfterCapabilityChanges(kinds) != []
    ensures AfterCapabilityChanges(kinds + [next]) == AfterCapabilityChanges(kinds) + [next]
    ensures AfterCapabilityChanges(kinds)[|AfterCapabilityChanges(kinds)| - 1] == kinds[|kinds| - 1]
  {
    if kinds[0] == CapabilityChanged {
      ChangesThenMore(kinds[1..], next);
      assert (kinds + [next])[1..] == kinds[1..] + [next];
    }
  }

  /** An absence list, entered after the changes `c`, can be continued as MayFollow says. */
  lemma {:induction false} AbsencesGrow(c: seq<EventType>, next: EventType)
    requires Absences(AfterCapabilityChanges(c))
    requires next in {Returned, CapabilityChanged, TurnedInactive}
    requires next == Returned <==> AfterCapabilityChanges(c) != [] && c[|c| - 1] == TurnedInactive
    ensures Absences(AfterCapabilityChanges(c + [next]))
    decreases |c|
  {
    var rest := AfterCapabilityChanges(c);
    if rest == [] {
      ChangesThenOne(c, next);
    } else {
      ChangesThenMore(c, next);
      if rest == [TurnedInactive] {
        assert (rest + [next])[2..] == [];
      } else {
        var inner := rest[2..];
        assert (rest + [next])[2..] == inner + [next];
        if inner == [] {
          ChangesThenOne(inner, next);
        } else if AfterCapabilityChanges(inner) == [] {
          LastIsChange(inner);
          AbsencesGrow(inner, next);
        } else {
          ChangesThenMore(inner, next);
          AbsencesGrow(inner, next);
        }
      }
    }
  }

  lemma {:induction false} LastIsChange(kinds: seq<EventType>)
    requires kinds != [] && AfterCapabilityChanges(kinds) == []
    ensures kinds[|kinds| - 1] == CapabilityChanged
  {
    if |kinds| > 1 {
      LastIsChange(kinds[1..]);
    }
  }

  lemma {:induction false} HistoryGrows(kinds: seq<EventType>, next: EventType)
    requires IsHistory(kinds) && MayFollow(kinds, next)
    ensures IsHistory(kinds + [next])
  {
    if kinds == [] {
      assert kinds + [next] == [next];
      assert [next][1..] == [];
    } else {
      var c := kinds[1..];
      assert (kinds + [next])[1..] == c + [next];
      if c != [] && AfterCapabilityChanges(c) == [] {
        LastIsChange(c);
      }
      AbsencesGrow(c, next);
    }
  }

  /** Each model's history has the prescribed shape and ends as its row's status says. */
  ghost predicate ShapedHistories(states: map<ModelRef, ModelState>, log: seq<ModelEvent>) {
    forall ref :: ShapedHistory(Get(states, ref), Kinds(Changes(log, ref)))
  }

  predicate ShapedHistory(row: Option<ModelState>, kinds: seq<EventType>) {
    && IsHistory(kinds)
    && (row.None? <==> kinds == [])
    && (row.Some? ==> (row.value.status == Inactive <==> kinds[|kinds| - 1] == TurnedInactive))
  }

  lemma {:induction false} ShapeKept(t: Transition, ref: ModelRef, row: Option<ModelState>, history: seq<ModelEvent>)
    requires row.Some? ==> Sound(row.value)
    requires ShapedHistory(row, Kinds(history))
    ensures ShapedHistory(EffectOn(t, ref, row).row, Kinds(history + EffectOn(t, ref, row).events))
  {
    var effect := EffectOn(t, ref, row);
    if effect.events == [] {
      assert history + effect.events == history;
    } else {
      var e := effect.events[0];
      assert effect.events == [e];
      assert Kinds(history + [e]) == Kinds(history) + [e.eventType];
      assert MayFollow(Kinds(history), e.eventType);
      HistoryGrows(Kinds(history), e.eventType);
    }
  }

  lemma {:induction false} ShapedHistoriesKept(t: Transition, before: map<ModelRef, ModelState>,
                                               after: map<ModelRef, ModelState>,
                                               log: seq<ModelEvent>, written: seq<ModelEvent>)
    requires AllSound(before) && ShapedHistories(before, log)
    requires Committed(t, before, after, written)
    ensures ShapedHistories(after, log + written)
  {
    forall ref ensures ShapedHistory(Get(after, ref), Kinds(Changes(log + written, ref))) {
      var row := Get(before, ref);
      ChangesAppend(log, written, ref);
      assert Changes(written, ref) == EffectOn(t, ref, row).events;
      assert Get(after, ref) == EffectOn(t, ref, row).row;
      assert row.Some? ==> Sound(row.value);
      assert ShapedHistory(row, Kinds(Changes(log, ref)));
      ShapeKept(t, ref, row, Changes(log, ref));
    }
  }

  // ----- conservation: activations minus deactivations -----

  predicate Activates(e: ModelEvent, provider: string) {
    e.changed && e.ref.provider == provider && (e.eventType == Added || e.eventType == Returned)
  }

  predicate Deactivates(e: ModelEvent, provider: string) {
    e.changed && e.ref.provider == provider && e.eventType == TurnedInactive
  }

  /** #added + #returned - #inactive among the provider's events. */
  function Balance(log: seq<ModelEvent>, provider: string): int {
    if log == [] then 0
    else
      var e := log[|log| - 1];
      Balance(log[..|log| - 1], provider)
        + (if Activates(e, provider) then 1 else if Deactivates(e, provider) then -1 else 0)
  }

  ghost function ActiveInLog(log: seq<ModelEvent>, provider: string): set<ModelRef> {
    set ref | ref in Replay(log) && ref.provider == provider && Replay(log)[ref].status == Active
  }

  ghost function ActiveModels(states: map<ModelRef, ModelState>, provider: string): set<ModelRef> {
    set ref | ref in states && ref.provider == provider && states[ref].status == Active
  }

  /** The last event of a well-shaped history really changes the status it announces. */
  lemma {:induction false} StatusFollowsLastEvent(history: seq<ModelEvent>)
    requires forall i :: 0 <= i < |history| ==> !history[i].eventType.Diagnostic?
    requires WellOrdered(Kinds(history))
    ensures history != [] ==> ReplayModel(history).Some?
    ensures history != [] ==>
              (ReplayModel(history).value.status == Inactive <==> history[|history| - 1].eventType == TurnedInactive)
  {
    if history != [] {
      var init := history[..|history| - 1];
      assert Kinds(init) == Kinds(history)[..|init|];
      assert forall i :: 0 <= i < |init| ==> Kinds(history)[..i] == Kinds(init)[..i];
      StatusFollowsLastEvent(init);
      assert MayFollow(Kinds(history)[..|init|], Kinds(history)[|init|]);
    }
  }

  /** Every event may follow the ones before it. */
  predicate WellOrdered(kinds: seq<EventType>) {
    forall i :: 0 <= i < |kinds| ==> MayFollow(kinds[..i], kinds[i])
  }

  /** One more legal event moves the provider's active set as it moves the balance. */
  lemma {:induction false} ActiveAfterEvent(log: seq<ModelEvent>, provider: string)
    requires log != [] && WellOrdered(Kinds(Changes(log, log[|log| - 1].ref)))
    requires forall e :: e in log && e.changed ==> !e.eventType.Diagnostic?
    ensures var e := log[|log| - 1]; var was := ActiveInLog(log[..|log| - 1], provider); var now := ActiveInLog(log, provider);
            if Activates(e, provider) then now == was + {e.ref} && e.ref !in was
            else if Deactivates(e, provider) then now == was - {e.ref} && e.ref in was
            else now == was
  {
    if log[|log| - 1].changed {
      LastEventMovesStatus(log);
    }
  }

  lemma {:induction false} BalanceCountsActive(log: seq<ModelEvent>, provider: string)
    requires forall ref :: WellOrdered(Kinds(Changes(log, ref)))
    requires forall e :: e in log && e.changed ==> !e.eventType.Diagnostic?
    ensures |ActiveInLog(log, provider)| == Balance(log, provider)
  {
    if log == [] {
      assert ActiveInLog(log, provider) == {};
    } else {
      var init := log[..|log| - 1];
      forall ref ensures WellOrdered(Kinds(Changes(init, ref))) {
        assert WellOrdered(Kinds(Changes(log, ref)));
        PrefixWellOrdered(Changes(init, ref), Changes(log, ref));
      }
      BalanceCountsActive(init, provider);
      ActiveAfterEvent(log, provider);
    }
  }

  lemma {:induction false} PrefixWellOrdered(a: seq<ModelEvent>, b: seq<ModelEvent>)
    requires |a| <= |b| && a == b[..|a|] && WellOrdered(Kinds(b))
    ensures WellOrdered(Kinds(a))
  {
    assert Kinds(a) == Kinds(b)[..|a|];
    forall i | 0 <= i < |a| ensures MayFollow(Kinds(a)[..i], Kinds(a)[i]) {
      assert Kinds(a)[..i] == Kinds(b)[..i];
    }
  }

  /** A legal event at the end of a history turns the status as its type announces. */
  lemma {:induction false} LegalEventMovesStatus(past: seq<ModelEvent>, e: ModelEvent)
    requires forall i :: 0 <= i < |past| ==> !past[i].eventType.Diagnostic?
    requires !e.eventType.Diagnostic?
    requires WellOrdered(Kinds(past + [e]))
    ensures Turns(e.eventType, ReplayModel(past), ReplayModel(past + [e]))
  {
    var history := past + [e];
    assert history[..|past|] == past && history[|past|] == e;
    PrefixWellOrdered(past, history);
    StatusFollowsLastEvent(past);
    StatusFollowsLastEvent(history);
    assert Kinds(history)[..|past|] == Kinds(past);
    assert MayFollow(Kinds(history)[..|past|], Kinds(history)[|past|]);
  }

  /** What an event type says about the status before and after it. */
  predicate Turns(t: EventType, was: Option<Replayed>, now: Option<Replayed>) {
    && now.Some?
    && (t == Added ==> was.None? && now.value.status == Active)
    && (t == Returned ==> was.Some? && was.value.status == Inactive && now.value.status == Active)
    && (t == TurnedInactive ==> was.Some? && was.value.status == Active && now.value.status == Inactive)
    && (t == CapabilityChanged ==> was.Some? && was.value.status == Active && now.value.status == Active)
  }

  /** The last event of a log changes only its own model, and turns it as its type announces. */
  lemma {:induction false} LastEventMovesStatus(log: seq<ModelEvent>)
    requires log != [] && log[|log| - 1].changed
    requires WellOrdered(Kinds(Changes(log, log[|log| - 1].ref)))
    requires forall e :: e in log && e.changed ==> !e.eventType.Diagnostic?
    ensures var e := log[|log| - 1]; var was := Get(Replay(log[..|log| - 1]), e.ref); var now := Get(Replay(log), e.ref);
            Turns(e.eventType, was, now) && Replay(log) == Replay(log[..|log| - 1])[e.ref := now.value]
  {
    var init, e := log[..|log| - 1], log[|log| - 1];
    assert e in log;
    var past := Changes(init, e.ref);
    assert Changes(log, e.ref) == past + [e];
    ChangesOwn(init, e.ref);
    forall i | 0 <= i < |past| ensures !past[i].eventType.Diagnostic? {
      assert past[i] in past && past[i] in log;
    }
    LegalEventMovesStatus(past, e);
    ReplayIsPerModel(init, e.ref);
    ReplayIsPerModel(log, e.ref);
  }

  /** The prescribed shape implies that every event legally follows its predecessors. */
  lemma {:induction false} ShapeIsWellOrdered(kinds: seq<EventType>)
    requires IsHistory(kinds)
    ensures WellOrdered(kinds)
    ensures forall i :: 0 <= i < |kinds| ==> !kinds[i].Diagnostic?
  {
    if kinds != [] {
      var c := kinds[1..];
      AbsencesOrdered(c);
      forall i | 0 <= i < |kinds| ensures MayFollow(kinds[..i], kinds[i]) && !kinds[i].Diagnostic? {
        if i > 1 {
          assert kinds[i] == c[i - 1] && kinds[i - 1] == c[i - 2];
        } else if i == 1 {
          assert kinds[1] == c[0];
        }
      }
    }
  }

  lemma {:induction false} AbsencesOrdered(c: seq<EventType>)
    requires Absences(AfterCapabilityChanges(c))
    ensures c != [] ==> c[0] == CapabilityChanged || c[0] == TurnedInactive
    ensures forall i :: 0 <= i < |c| ==> c[i] in {Returned, CapabilityChanged, TurnedInactive}
    ensures forall i :: 1 <= i < |c| ==> (c[i] == Returned <==> c[i - 1] == TurnedInactive)
    decreases |c|
  {
    if c != [] && c[0] == CapabilityChanged {
      AbsencesOrdered(c[1..]);
      forall i | 1 <= i < |c| ensures c[i] == Returned <==> c[i - 1] == TurnedInactive {
        assert c[i] == c[1..][i - 1];
        if i > 1 { assert c[i - 1] == c[1..][i - 2]; }
      }
      forall i | 0 <= i < |c| ensures c[i] in {Returned, CapabilityChanged, TurnedInactive} {
        if i > 0 { assert c[i] == c[1..][i - 1]; }
      }
    } else if |c| >= 2 {
      AbsencesOrdered(c[2..]);
      forall i | 1 <= i < |c| ensures c[i] == Returned <==> c[i - 1] == TurnedInactive {
        if i >= 2 { assert c[i] == c[2..][i - 2]; }
        if i >= 3 { assert c[i - 1] == c[2..][i - 3]; }
      }
      forall i | 0 <= i < |c| ensures c[i] in {Returned, CapabilityChanged, TurnedInactive} {
        if i >= 2 { assert c[i] == c[2..][i - 2]; }
      }
    }
  }

  /** Conservation: a provider's active models number #added + #returned - #inactive. */
  lemma {:induction false} ActiveModelsBalance(states: map<ModelRef, ModelState>, log: seq<ModelEvent>, provider: string)
    requires LogMatches(states, log) && ShapedHistories(states, log)
    ensures |ActiveModels(states, provider)| == Balance(log, provider)
  {
    forall ref
      ensures WellOrdered(Kinds(Changes(log, ref)))
      ensures forall e :: e in Changes(log, ref) ==> !e.eventType.Diagnostic?
    {
      assert ShapedHistory(Get(states, ref), Kinds(Changes(log, ref)));
      ShapeIsWellOrdered(Kinds(Changes(log, ref)));
      var history := Changes(log, ref);
      forall e | e in history ensures !e.eventType.Diagnostic? {
        var i :| 0 <= i < |history| && history[i] == e;
        assert Kinds(history)[i] == e.eventType;
      }
    }
    forall e | e in log && e.changed ensures !e.eventType.Diagnostic? {
      ChangesOwn(log, e.ref);
      assert e in Changes(log, e.ref);
    }
    BalanceCountsActive(log, provider);
    LogMatchesMeans(states, log);
    assert ActiveModels(states, provider) == ActiveInLog(log, provider);
  }
}
