/**
 * detectModels as a concurrent program: one goroutine per listed model, a counting
 * semaphore bounding the probes, a context that may be cancelled, and a wait group.
 */
module FanOut {
  import opened Basics
  import opened Lifecycle
  import opened Detection

  datatype Phase =
    | Unborn      // not started yet
    | Waiting     // in the select: semaphore or cancelled context
    | Probing     // holds a token, probes running
    | Probed      // slot written, token still held
    | Leaving     // slot written, no token
    | Gone        // wg.Done() called

  /** What the goroutines work on: the listed ids and the outcome of probing each position. */
  datatype Job = Job(ids: seq<string>, maxConcurrency: int, probe: nat -> ObservedModel) {
    /** modelConcurrency: the size of the semaphore */
    function Limit(): (limit: nat)
      ensures limit >= 1
    {
      if maxConcurrency > 0 then maxConcurrency else 1
    }
  }

  datatype Fan = Fan(
    phases: seq<Phase>,
    slots: seq<Option<ObservedModel>>,
    writes: seq<nat>,     // history: how often each slot was written
    tokens: nat,          // items in the semaphore channel
    spawned: nat,         // goroutines started by the loop
    running: nat,         // the wait group's counter
    cancelled: bool,
    returned: bool
  )

  datatype Move = Spawn | Acquire(i: nat) | GiveUp(i: nat) | Write(i: nat) | Release(i: nat) | Leave(i: nat) | Cancel | Return

  function Start(job: Job): Fan {
    var n := |job.ids|;
    Fan(seq(n, _ => Unborn), seq(n, _ => None), seq(n, _ => 0), 0, 0, 0, false, false)
  }

  predicate In(f: Fan, i: nat, phase: Phase) { i < |f.phases| && f.phases[i] == phase }

  predicate Shaped(job: Job, f: Fan) {
    |f.phases| == |f.slots| == |f.writes| == |job.ids| && f.spawned <= |job.ids|
  }

  predicate Enabled(job: Job, f: Fan, m: Move) {
    !f.returned &&
    match m
    case Spawn => f.spawned < |job.ids|
    case Acquire(i) => In(f, i, Waiting) && f.tokens < job.Limit()
    case GiveUp(i) => In(f, i, Waiting) && f.cancelled
    case Write(i) => In(f, i, Probing)
    case Release(i) => In(f, i, Probed) && f.tokens > 0
    case Leave(i) => In(f, i, Leaving) && f.running > 0
    case Cancel => !f.cancelled
    case Return => f.spawned == |job.ids| && f.running == 0
  }

  function Moved(f: Fan, i: nat, phase: Phase): Fan
    requires i < |f.phases|
  {
    f.(phases := f.phases[i := phase])
  }

  function Written(f: Fan, i: nat, value: ObservedModel): Fan
    requires i < |f.slots| == |f.writes|
  {
    f.(slots := f.slots[i := Some(value)], writes := f.writes[i := f.writes[i] + 1])
  }

  function Do(job: Job, f: Fan, m: Move): Fan
    requires Shaped(job, f) && Enabled(job, f, m)
  {
    match m
    case Spawn => Moved(f, f.spawned, Waiting).(spawned := f.spawned + 1, running := f.running + 1)
    case Acquire(i) => Moved(f, i, Probing).(tokens := f.tokens + 1)
    case GiveUp(i) => Written(Moved(f, i, Leaving), i, Cancelled(job.ids[i]))
    case Write(i) => Written(Moved(f, i, Probed), i, job.probe(i))
    case Release(i) => Moved(f, i, Leaving).(tokens := f.tokens - 1)
    case Leave(i) => Moved(f, i, Gone).(running := f.running - 1)
    case Cancel => f.(cancelled := true)
    case Return => f.(returned := true)
  }

  /** Any schedule of the goroutines, the spawning loop and the outside world. */
  ghost predicate Schedule(job: Job, fs: seq<Fan>, moves: seq<Move>) {
    && |fs| == |moves| + 1
    && fs[0] == Start(job)
    && forall k :: 0 <= k < |moves| ==> Shaped(job, fs[k]) && Enabled(job, fs[k], moves[k]) && fs[k + 1] == Do(job, fs[k], moves[k])
  }

  // ----- totals over the goroutines -----

  function Total(phases: seq<Phase>, weight: Phase -> nat): nat {
    if phases == [] then 0 else Total(phases[..|phases| - 1], weight) + weight(phases[|phases| - 1])
  }

  lemma {:induction false} TotalMoves(phases: seq<Phase>, i: nat, phase: Phase, weight: Phase -> nat)
    requires i < |phases|
    ensures Total(phases[i := phase], weight) + weight(phases[i]) == Total(phases, weight) + weight(phase)
  {
    var last := |phases| - 1;
    if i < last {
      TotalMoves(phases[..last], i, phase, weight);
      assert phases[i := phase][..last] == phases[..last][i := phase];
    } else {
      assert phases[i := phase][..last] == phases[..last];
    }
  }

  lemma {:induction false} TotalOfUnborn(n: nat, weight: Phase -> nat)
    ensures Total(seq(n, _ => Unborn), weight) == n * weight(Unborn)
  {
    if n > 0 {
      TotalOfUnborn(n - 1, weight);
      assert seq(n, _ => Unborn)[..n - 1] == seq(n - 1, _ => Unborn);
    }
  }

  lemma {:induction false} TotalZero(phases: seq<Phase>, weight: Phase -> nat, i: nat)
    requires i < |phases|
    ensures weight(phases[i]) <= Total(phases, weight)
  {
    var last := |phases| - 1;
    if i < last {
      TotalZero(phases[..last], weight, i);
    }
  }

  function Token(p: Phase): nat { if p == Probing || p == Probed then 1 else 0 }
  function Alive(p: Phase): nat { if p == Unborn || p == Gone then 0 else 1 }
  function Work(p: Phase): nat {
    match p case Unborn => 5 case Waiting => 4 case Probing => 3 case Probed => 2 case Leaving => 1 case Gone => 0
  }

  // ----- the invariant -----

  /** A slot is filled once, by its own goroutine, with its own probe or its own cancellation. */
  predicate SlotSound(job: Job, f: Fan, i: nat)
    requires Shaped(job, f) && i < |job.ids|
  {
    && (f.slots[i].Some? <==> f.phases[i] in {Probed, Leaving, Gone})
    && f.writes[i] == (if f.slots[i].Some? then 1 else 0)
    && (f.slots[i].Some? ==> f.slots[i].value == job.probe(i) || (f.cancelled && f.slots[i].value == Cancelled(job.ids[i])))
  }

  ghost predicate FanSound(job: Job, f: Fan) {
    && Shaped(job, f)
    && f.tokens == Total(f.phases, Token) && f.tokens <= job.Limit()
    && f.running == Total(f.phases, Alive)
    && (forall i :: 0 <= i < |job.ids| ==> (f.phases[i] == Unborn <==> f.spawned <= i))
    && (forall i :: 0 <= i < |job.ids| ==> SlotSound(job, f, i))
    && (f.returned ==> f.spawned == |job.ids| && f.running == 0)
  }

  lemma {:induction false} StartIsSound(job: Job)
    ensures FanSound(job, Start(job))
  {
    TotalOfUnborn(|job.ids|, Token);
    TotalOfUnborn(|job.ids|, Alive);
  }

  /** The goroutine a move concerns, and its next phase. */
  function Actor(f: Fan, m: Move): Option<(nat, Phase)> {
    match m
    case Spawn => Some((f.spawned, Waiting))
    case Acquire(i) => Some((i, Probing))
    case GiveUp(i) => Some((i, Leaving))
    case Write(i) => Some((i, Probed))
    case Release(i) => Some((i, Leaving))
    case Leave(i) => Some((i, Gone))
    case _ => None
  }

  lemma {:induction false} ActorMoves(job: Job, f: Fan, m: Move)
    requires FanSound(job, f) && Enabled(job, f, m)
    ensures var g := Do(job, f, m); var actor := Actor(f, m);
            && (actor.None? ==> g.phases == f.phases && g.slots == f.slots && g.writes == f.writes)
            && (actor.Some? ==> actor.value.0 < |f.phases| && g.phases == f.phases[actor.value.0 := actor.value.1])
            && Shaped(job, g)
  {
  }

  /** A slot changes only when its own goroutine writes it. */
  lemma {:induction false} SlotFrame(job: Job, f: Fan, m: Move, j: nat)
    requires Shaped(job, f) && Enabled(job, f, m) && j < |job.ids| && Shaped(job, Do(job, f, m))
    requires f.phases[j] == Unborn <==> f.spawned <= j
    ensures var g := Do(job, f, m); var actor := Actor(f, m);
            && g.cancelled == (f.cancelled || m == Cancel)
            && (m != Write(j) && m != GiveUp(j) ==> g.slots[j] == f.slots[j] && g.writes[j] == f.writes[j])
            && (actor.None? || actor.value.0 != j ==> g.phases[j] == f.phases[j])
  {
  }

  lemma {:induction false} SlotKept(job: Job, f: Fan, m: Move, j: nat)
    requires FanSound(job, f) && Enabled(job, f, m) && j < |job.ids| && Shaped(job, Do(job, f, m))
    ensures SlotSound(job, Do(job, f, m), j)
  {
    assert SlotSound(job, f, j);
    assert f.phases[j] == Unborn <==> f.spawned <= j;
    SlotFrame(job, f, m, j);
  }

  lemma {:induction false} CountsKept(job: Job, f: Fan, m: Move)
    requires FanSound(job, f) && Enabled(job, f, m)
    ensures var g := Do(job, f, m);
            && g.tokens == Total(g.phases, Token) && g.tokens <= job.Limit()
            && g.running == Total(g.phases, Alive)
            && (g.returned ==> g.spawned == |job.ids| && g.running == 0)
  {
    ActorMoves(job, f, m);
    var actor := Actor(f, m);
    if actor.Some? {
      var (i, phase) := actor.value;
      TotalMoves(f.phases, i, phase, Token);
      TotalMoves(f.phases, i, phase, Alive);
    }
  }

  lemma {:induction false} BirthsKept(job: Job, f: Fan, m: Move, i: nat)
    requires FanSound(job, f) && Enabled(job, f, m) && i < |job.ids| && Shaped(job, Do(job, f, m))
    ensures Do(job, f, m).phases[i] == Unborn <==> Do(job, f, m).spawned <= i
  {
    assert f.phases[i] == Unborn <==> f.spawned <= i;
  }

  lemma {:induction false} SoundKept(job: Job, f: Fan, m: Move)
    requires FanSound(job, f) && Enabled(job, f, m)
    ensures FanSound(job, Do(job, f, m))
  {
    ActorMoves(job, f, m);
    CountsKept(job, f, m);
    forall j: nat | j < |job.ids|
      ensures SlotSound(job, Do(job, f, m), j)
      ensures Do(job, f, m).phases[j] == Unborn <==> Do(job, f, m).spawned <= j
    {
      SlotKept(job, f, m, j);
      BirthsKept(job, f, m, j);
    }
  }

  lemma {:induction false} AlwaysSound(job: Job, fs: seq<Fan>, moves: seq<Move>, k: nat)
    requires Schedule(job, fs, moves) && k < |fs|
    ensures FanSound(job, fs[k])
  {
    if k == 0 {
      StartIsSound(job);
    } else {
      AlwaysSound(job, fs, moves, k - 1);
      SoundKept(job, fs[k - 1], moves[k - 1]);
      assert fs[k - 1 + 1] == Do(job, fs[k - 1], moves[k - 1]);
    }
  }

  lemma {:induction false} ProbingCounted(phases: seq<Phase>)
    ensures |set i | 0 <= i < |phases| && phases[i] == Probing| <= Total(phases, Token)
  {
    var all := set i | 0 <= i < |phases| && phases[i] == Probing;
    if phases != [] {
      var init, last := phases[..|phases| - 1], |phases| - 1;
      ProbingCounted(init);
      var before := set i | 0 <= i < |init| && init[i] == Probing;
      if phases[last] == Probing {
        assert all == before + {last};
      } else {
        assert all == before;
      }
    } else {
      assert all == {};
    }
  }

  /** At most Limit() goroutines probe at the same time, in every schedule. */
  lemma {:induction false} AtMostLimitProbe(job: Job, fs: seq<Fan>, moves: seq<Move>, k: nat)
    requires Schedule(job, fs, moves) && k < |fs|
    ensures |set i | 0 <= i < |fs[k].phases| && fs[k].phases[i] == Probing| <= if job.maxConcurrency > 0 then job.maxConcurrency else 1
  {
    AlwaysSound(job, fs, moves, k);
    ProbingCounted(fs[k].phases);
  }

  lemma {:induction false} TokensCounted(phases: seq<Phase>)
    ensures |set i | 0 <= i < |phases| && (phases[i] == Probing || phases[i] == Probed)| == Total(phases, Token)
  {
    var all := set i | 0 <= i < |phases| && (phases[i] == Probing || phases[i] == Probed);
    if phases != [] {
      var init, last := phases[..|phases| - 1], |phases| - 1;
      TokensCounted(init);
      var before := set i | 0 <= i < |init| && (init[i] == Probing || init[i] == Probed);
      assert all == before + if phases[last] == Probing || phases[last] == Probed then {last} else {};
    } else {
      assert all == {};
    }
  }

  /** A waiting goroutine starts as soon as fewer than the limit are at work, and gives up once cancelled. */
  lemma {:induction false} WaitingResponds(job: Job, fs: seq<Fan>, moves: seq<Move>, k: nat, i: nat)
    requires Schedule(job, fs, moves) && k < |fs| && !fs[k].returned
    requires i < |fs[k].phases| && fs[k].phases[i] == Waiting
    ensures Enabled(job, fs[k], Acquire(i)) <==>
              |set j | 0 <= j < |fs[k].phases| && (fs[k].phases[j] == Probing || fs[k].phases[j] == Probed)|
              < if job.maxConcurrency > 0 then job.maxConcurrency else 1
    ensures fs[k].cancelled <==> Enabled(job, fs[k], GiveUp(i))
    ensures fs[k].cancelled ==>
              && Shaped(job, fs[k]) && Enabled(job, fs[k], GiveUp(i))
              && Do(job, fs[k], GiveUp(i)).slots[i]
                 == Some(ObservedModel(job.ids[i], Skip, false, "context canceled before capability probes"))
  {
    AlwaysSound(job, fs, moves, k);
    TokensCounted(fs[k].phases);
  }

  // ----- progress -----

  /** How many moves can still happen. */
  function Remaining(f: Fan): nat {
    Total(f.phases, Work) + (if f.cancelled then 0 else 1) + (if f.returned then 0 else 1)
  }

  lemma {:induction false} EveryMoveIsProgress(job: Job, f: Fan, m: Move)
    requires FanSound(job, f) && Enabled(job, f, m)
    ensures Remaining(Do(job, f, m)) < Remaining(f)
  {
    var actor := Actor(f, m);
    if actor.Some? {
      var (i, phase) := actor.value;
      TotalMoves(f.phases, i, phase, Work);
    }
  }

  /** So no schedule is longer than five moves per model and two more. */
  lemma {:induction false} SchedulesAreShort(job: Job, fs: seq<Fan>, moves: seq<Move>, k: nat)
    requires Schedule(job, fs, moves) && k <= |moves|
    ensures k + Remaining(fs[k]) <= 5 * |job.ids| + 2
  {
    if k == 0 {
      TotalOfUnborn(|job.ids|, Work);
    } else {
      SchedulesAreShort(job, fs, moves, k - 1);
      AlwaysSound(job, fs, moves, k - 1);
      EveryMoveIsProgress(job, fs[k - 1], moves[k - 1]);
      assert fs[k - 1 + 1] == Do(job, fs[k - 1], moves[k - 1]);
    }
  }

  /** A semaphore of at least one token never blocks everyone: until the call returns, some goroutine can move. */
  lemma {:induction false} NeverStuck(job: Job, fs: seq<Fan>, moves: seq<Move>, k: nat)
    requires Schedule(job, fs, moves) && k < |fs|
    requires !fs[k].returned
    ensures exists m :: Enabled(job, fs[k], m) && m != Cancel
  {
    var f := fs[k];
    AlwaysSound(job, fs, moves, k);
    if f.spawned < |job.ids| {
      assert Enabled(job, f, Spawn);
    } else if f.running == 0 {
      assert Enabled(job, f, Return);
    } else {
      SomeAlive(f.phases);
      var i :| 0 <= i < |f.phases| && Alive(f.phases[i]) == 1;
      if f.tokens > 0 {
        SomeToken(f.phases);
        var j :| 0 <= j < |f.phases| && Token(f.phases[j]) == 1;
        assert Enabled(job, f, if f.phases[j] == Probing then Write(j) else Release(j));
      } else {
        TotalZero(f.phases, Token, i);
        assert Enabled(job, f, if f.phases[i] == Waiting then Acquire(i) else Leave(i));
      }
    }
  }

  lemma {:induction false} SomeAlive(phases: seq<Phase>)
    requires Total(phases, Alive) > 0
    ensures exists i :: 0 <= i < |phases| && Alive(phases[i]) == 1
  {
    if Alive(phases[|phases| - 1]) == 0 {
      SomeAlive(phases[..|phases| - 1]);
    }
  }

  lemma {:induction false} SomeToken(phases: seq<Phase>)
    requires Total(phases, Token) > 0
    ensures exists i :: 0 <= i < |phases| && Token(phases[i]) == 1
  {
    if Token(phases[|phases| - 1]) == 0 {
      SomeToken(phases[..|phases| - 1]);
    }
  }

  // ----- the result -----

  /** The slice detectModels returns. */
  function Result(f: Fan): seq<ObservedModel>
    requires forall i :: 0 <= i < |f.slots| ==> f.slots[i].Some?
  {
    seq(|f.slots|, i requires 0 <= i < |f.slots| => f.slots[i].value)
  }

  /** Probing the listed models one after the other. */
  function SequentialMap(job: Job): seq<ObservedModel> {
    seq(|job.ids|, i requires 0 <= i < |job.ids| => job.probe(i))
  }

  /**
   * When the call returns, every slot was written exactly once, each with its own probe or, only
   * under cancellation, its own skip record; uncancelled, the slice is the sequential map in order.
   */
  lemma {:induction false} ReturnedResult(job: Job, fs: seq<Fan>, moves: seq<Move>, k: nat)
    requires Schedule(job, fs, moves) && k < |fs| && fs[k].returned
    ensures var f := fs[k];
            && |f.slots| == |f.writes| == |job.ids|
            && (forall i :: 0 <= i < |job.ids| ==> f.slots[i].Some? && f.writes[i] == 1)
            && (forall i :: 0 <= i < |job.ids| ==>
                  || Result(f)[i] == job.probe(i)
                  || (f.cancelled
                      && Result(f)[i] == ObservedModel(job.ids[i], Skip, false, "context canceled before capability probes")))
            && (!f.cancelled ==> Result(f) == SequentialMap(job))
  {
    var f := fs[k];
    AlwaysSound(job, fs, moves, k);
    forall i | 0 <= i < |job.ids| ensures f.slots[i].Some? && f.writes[i] == 1 {
      assert SlotSound(job, f, i);
      TotalZero(f.phases, Alive, i);
    }
    forall i | 0 <= i < |job.ids|
      ensures Result(f)[i] == job.probe(i) || (f.cancelled && Result(f)[i] == Cancelled(job.ids[i]))
    {
      assert SlotSound(job, f, i);
    }
    if !f.cancelled {
      forall i | 0 <= i < |job.ids| ensures Result(f)[i] == job.probe(i) {
        assert SlotSound(job, f, i);
      }
      assert Result(f) == SequentialMap(job);
    }
  }
}
