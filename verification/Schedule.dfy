/** Model-run schedules: interval overrides, the scheduler entries built from them, and reading those back. */
module Schedule {
  import opened Basics
  import opened Text
  import opened Keys
  import opened Lifecycle
  import opened Wildcard
  import opened Spacing

  datatype Override = Override(modelId: string, pattern: string, providerId: string, interval: int)

  predicate ProviderMatches(configured: string, actual: string) {
    TrimSpace(configured) == "" || TrimSpace(configured) == actual
  }

  predicate ExactMatch(o: Override, ref: ModelRef) {
    TrimSpace(o.modelId) == ref.model && ProviderMatches(o.providerId, ref.provider) && o.interval > 0
  }

  predicate PatternMatch(o: Override, ref: ModelRef) {
    && TrimSpace(o.pattern) != "" && o.interval > 0
    && ProviderMatches(o.providerId, ref.provider)
    && GlobMatches(TrimSpace(o.pattern), ref.model)
  }

  /** The first exact override that applies. */
  function FirstExact(overrides: seq<Override>, ref: ModelRef): Option<int> {
    if overrides == [] then None
    else if ExactMatch(overrides[0], ref) then Some(overrides[0].interval)
    else FirstExact(overrides[1..], ref)
  }

  /** The first wildcard override that applies. */
  function FirstPattern(overrides: seq<Override>, ref: ModelRef): Option<int> {
    if overrides == [] then None
    else if PatternMatch(overrides[0], ref) then Some(overrides[0].interval)
    else FirstPattern(overrides[1..], ref)
  }

  function Resolved(overrides: seq<Override>, standard: int, ref: ModelRef): int {
    match FirstExact(overrides, ref)
    case Some(interval) => interval
    case None =>
      match FirstPattern(overrides, ref)
      case Some(interval) => interval
      case None => standard
  }

  /** The override names the model, for its provider or for any. */
  predicate Names(o: Override, ref: ModelRef) {
    o.interval > 0 && TrimSpace(o.modelId) == ref.model && (TrimSpace(o.providerId) == "" || TrimSpace(o.providerId) == ref.provider)
  }

  /** The override's pattern covers the model, for its provider or for any. */
  predicate Covers(o: Override, ref: ModelRef) {
    && o.interval > 0 && TrimSpace(o.pattern) != "" && GlobMatches(TrimSpace(o.pattern), ref.model)
    && (TrimSpace(o.providerId) == "" || TrimSpace(o.providerId) == ref.provider)
  }

  /** The first override naming the model decides, else the first covering it, else the default. */
  ghost predicate IntervalFor(overrides: seq<Override>, standard: int, ref: ModelRef, interval: int) {
    && (forall k :: 0 <= k < |overrides| && Names(overrides[k], ref) && (forall i :: 0 <= i < k ==> !Names(overrides[i], ref)) ==>
          interval == overrides[k].interval)
    && ((forall i :: 0 <= i < |overrides| ==> !Names(overrides[i], ref)) ==>
          forall k :: 0 <= k < |overrides| && Covers(overrides[k], ref) && (forall i :: 0 <= i < k ==> !Covers(overrides[i], ref)) ==>
            interval == overrides[k].interval)
    && ((forall i :: 0 <= i < |overrides| ==> !Names(overrides[i], ref) && !Covers(overrides[i], ref)) ==> interval == standard)
  }

  lemma {:induction false} FirstExactMeans(overrides: seq<Override>, ref: ModelRef)
    ensures FirstExact(overrides, ref).None? <==> forall i :: 0 <= i < |overrides| ==> !Names(overrides[i], ref)
    ensures forall k :: 0 <= k < |overrides| && Names(overrides[k], ref) && (forall i :: 0 <= i < k ==> !Names(overrides[i], ref)) ==>
              FirstExact(overrides, ref) == Some(overrides[k].interval)
  {
    if overrides != [] && !Names(overrides[0], ref) {
      var rest := overrides[1..];
      FirstExactMeans(rest, ref);
      assert forall i :: 0 < i < |overrides| ==> overrides[i] == rest[i - 1];
      forall k | 0 <= k < |overrides| && Names(overrides[k], ref) && (forall i :: 0 <= i < k ==> !Names(overrides[i], ref))
        ensures FirstExact(overrides, ref) == Some(overrides[k].interval)
      {
        assert Names(rest[k - 1], ref) && forall i :: 0 <= i < k - 1 ==> rest[i] == overrides[i + 1];
      }
    }
  }

  lemma {:induction false} FirstPatternMeans(overrides: seq<Override>, ref: ModelRef)
    ensures FirstPattern(overrides, ref).None? <==> forall i :: 0 <= i < |overrides| ==> !Covers(overrides[i], ref)
    ensures forall k :: 0 <= k < |overrides| && Covers(overrides[k], ref) && (forall i :: 0 <= i < k ==> !Covers(overrides[i], ref)) ==>
              FirstPattern(overrides, ref) == Some(overrides[k].interval)
  {
    if overrides != [] && !Covers(overrides[0], ref) {
      var rest := overrides[1..];
      FirstPatternMeans(rest, ref);
      assert forall i :: 0 < i < |overrides| ==> overrides[i] == rest[i - 1];
      forall k | 0 <= k < |overrides| && Covers(overrides[k], ref) && (forall i :: 0 <= i < k ==> !Covers(overrides[i], ref))
        ensures FirstPattern(overrides, ref) == Some(overrides[k].interval)
      {
        assert Covers(rest[k - 1], ref) && forall i :: 0 <= i < k - 1 ==> rest[i] == overrides[i + 1];
      }
    }
  }

  /** Resolution meets the rule. */
  lemma {:induction false} ResolvedDecides(overrides: seq<Override>, standard: int, ref: ModelRef)
    ensures IntervalFor(overrides, standard, ref, Resolved(overrides, standard, ref))
  {
    FirstExactMeans(overrides, ref);
    FirstPatternMeans(overrides, ref);
  }

  /** modelInterval: exact overrides first, then wildcards, then the default. */
  method ModelInterval(overrides: seq<Override>, standard: int, ref: ModelRef) returns (interval: int)
    ensures interval == Resolved(overrides, standard, ref)
    ensures IntervalFor(overrides, standard, ref, interval)
  {
    for i := 0 to |overrides|
      invariant FirstExact(overrides, ref) == FirstExact(overrides[i..], ref)
    {
      var o := overrides[i];
      assert overrides[i..][1..] == overrides[i + 1..];
      if TrimSpace(o.modelId) == ref.model && ProviderMatches(o.providerId, ref.provider) && o.interval > 0 {
        ResolvedDecides(overrides, standard, ref);
        return o.interval;
      }
    }
    for i := 0 to |overrides|
      invariant FirstExact(overrides, ref) == None
      invariant FirstPattern(overrides, ref) == FirstPattern(overrides[i..], ref)
    {
      var o := overrides[i];
      assert overrides[i..][1..] == overrides[i + 1..];
      var pattern := TrimSpace(o.pattern);
      if pattern == "" || o.interval <= 0 {
        continue;
      }
      var matched := Match(pattern, ref.model);
      if ProviderMatches(o.providerId, ref.provider) && matched {
        ResolvedDecides(overrides, standard, ref);
        return o.interval;
      }
    }
    ResolvedDecides(overrides, standard, ref);
    return standard;
  }

  // ----- the order of overrides -----

  /** The overrides that name a model. */
  function Named(overrides: seq<Override>): seq<Override> {
    if overrides == [] then []
    else (if TrimSpace(overrides[0].modelId) != "" then [overrides[0]] else []) + Named(overrides[1..])
  }

  /** The overrides that carry a pattern. */
  function Patterned(overrides: seq<Override>): seq<Override> {
    if overrides == [] then []
    else (if TrimSpace(overrides[0].pattern) != "" then [overrides[0]] else []) + Patterned(overrides[1..])
  }

  lemma {:induction false} NamedDecides(overrides: seq<Override>, ref: ModelRef)
    requires ref.model != ""
    ensures FirstExact(Named(overrides), ref) == FirstExact(overrides, ref)
  {
    if overrides != [] {
      NamedDecides(overrides[1..], ref);
      if TrimSpace(overrides[0].modelId) != "" {
        assert Named(overrides)[1..] == Named(overrides[1..]);
      } else {
        assert Named(overrides) == Named(overrides[1..]);
      }
    }
  }

  lemma {:induction false} PatternedDecides(overrides: seq<Override>, ref: ModelRef)
    ensures FirstPattern(Patterned(overrides), ref) == FirstPattern(overrides, ref)
  {
    if overrides != [] {
      PatternedDecides(overrides[1..], ref);
      if TrimSpace(overrides[0].pattern) != "" {
        assert Patterned(overrides)[1..] == Patterned(overrides[1..]);
      } else {
        assert Patterned(overrides) == Patterned(overrides[1..]);
      }
    }
  }

  /** Only the order of named overrides among themselves, and of patterns among themselves, matters. */
  lemma {:induction false} OnlyRelativeOrderMatters(a: seq<Override>, b: seq<Override>, standard: int, ref: ModelRef)
    requires ref.model != ""
    requires Named(a) == Named(b) && Patterned(a) == Patterned(b)
    ensures Resolved(a, standard, ref) == Resolved(b, standard, ref)
  {
    NamedDecides(a, ref);
    NamedDecides(b, ref);
    PatternedDecides(a, ref);
    PatternedDecides(b, ref);
  }

  /** An applicable exact override wins wherever it stands, and whatever the patterns say. */
  lemma {:induction false} ExactAlwaysWins(overrides: seq<Override>, k: nat, standard: int, ref: ModelRef)
    requires k < |overrides| && Names(overrides[k], ref)
    requires forall i :: 0 <= i < k ==> !Names(overrides[i], ref)
    ensures Resolved(overrides, standard, ref) == overrides[k].interval
  {
    FirstExactMeans(overrides, ref);
  }

  // ----- scheduler entries and their read-back -----

  datatype TaskOption = Queue(name: string) | MaxRetry(times: nat) | Timeout(limit: int) | ProcessIn(delay: int)

  datatype Task = ModelRun(ref: ModelRef) | UnreadableModelRun | Static(name: string)

  datatype PeriodicConfig = PeriodicConfig(every: int, task: Task, options: seq<TaskOption>)

  /** A registered entry: its task, options and next enqueue time, which may be unset. */
  datatype SchedulerEntry = SchedulerEntry(task: Option<Task>, options: seq<TaskOption>, next: Option<Time>)

  function TaskOptions(queue: string): seq<TaskOption> {
    [Queue(queue), MaxRetry(0), Timeout(60_000_000_000)]
  }

  function ScheduledOptions(queue: string, index: int): seq<TaskOption> {
    TaskOptions(queue) + [ProcessIn((if index < 0 then 0 else index) * MODEL_RUN_SPACING)]
  }

  datatype ScheduleSettings = ScheduleSettings(
    httpCheck: int, authCheck: int, modelSnapshot: int, modelRuns: int, retention: int, queue: string,
    overrides: seq<Override>)

  /** The static schedules, before any model. */
  function StaticConfigs(s: ScheduleSettings): seq<PeriodicConfig> {
    [PeriodicConfig(s.httpCheck, Static("monitor.http_check"), TaskOptions(s.queue)),
     PeriodicConfig(s.authCheck, Static("monitor.auth_check"), TaskOptions(s.queue)),
     PeriodicConfig(s.modelSnapshot, Static("monitor.model_snapshot"), TaskOptions(s.queue))]
    + if s.retention > 0
      then [PeriodicConfig(24 * 3600 * 1_000_000_000, Static("monitor.history_retention"), TaskOptions(s.queue))]
      else []
  }

  function ModelConfig(s: ScheduleSettings, models: seq<ModelRef>, i: nat): PeriodicConfig
    requires i < |models|
  {
    PeriodicConfig(Resolved(s.overrides, s.modelRuns, models[i]), ModelRun(models[i]), ScheduledOptions(s.queue, i))
  }

  /** A static schedule. */
  ghost function OnSchedule(every: int, name: string, queue: string): PeriodicConfig {
    PeriodicConfig(every, Static(name), [Queue(queue), MaxRetry(0), Timeout(60_000_000_000)])
  }

  lemma {:induction false} StaticConfigsMean(s: ScheduleSettings, configs: seq<PeriodicConfig>)
    requires |configs| >= |StaticConfigs(s)| && configs[..|StaticConfigs(s)|] == StaticConfigs(s)
    ensures |StaticConfigs(s)| == if s.retention > 0 then 4 else 3
    ensures configs[0] == OnSchedule(s.httpCheck, "monitor.http_check", s.queue)
    ensures configs[1] == OnSchedule(s.authCheck, "monitor.auth_check", s.queue)
    ensures configs[2] == OnSchedule(s.modelSnapshot, "monitor.model_snapshot", s.queue)
    ensures s.retention > 0 ==> configs[3] == OnSchedule(86_400_000_000_000, "monitor.history_retention", s.queue)
  {
    var n := |StaticConfigs(s)|;
    assert forall i :: 0 <= i < n ==> configs[i] == configs[..n][i];
  }

  /** The entries a scheduler gets: three or four static ones, then one per model in order, each 30 s after the one before. */
  ghost predicate ConfigsFor(s: ScheduleSettings, models: seq<ModelRef>, configs: seq<PeriodicConfig>) {
    var n := if s.retention > 0 then 4 else 3;
    && |configs| == n + |models|
    && configs[0] == OnSchedule(s.httpCheck, "monitor.http_check", s.queue)
    && configs[1] == OnSchedule(s.authCheck, "monitor.auth_check", s.queue)
    && configs[2] == OnSchedule(s.modelSnapshot, "monitor.model_snapshot", s.queue)
    && (s.retention > 0 ==> configs[3] == OnSchedule(86_400_000_000_000, "monitor.history_retention", s.queue))
    && forall i :: 0 <= i < |models| ==> ConfigFor(s, models[i], i, configs[n + i])
  }

  ghost predicate ConfigFor(s: ScheduleSettings, ref: ModelRef, i: nat, config: PeriodicConfig) {
    && config.task == ModelRun(ref)
    && config.options == [Queue(s.queue), MaxRetry(0), Timeout(60_000_000_000), ProcessIn(i * 30_000_000_000)]
    && IntervalFor(s.overrides, s.modelRuns, ref, config.every)
  }

  lemma {:induction false} ConfigsMean(s: ScheduleSettings, models: seq<ModelRef>, configs: seq<PeriodicConfig>)
    requires |configs| == |StaticConfigs(s)| + |models| && configs[..|StaticConfigs(s)|] == StaticConfigs(s)
    requires forall i :: 0 <= i < |models| ==> configs[|StaticConfigs(s)| + i] == ModelConfig(s, models, i)
    ensures ConfigsFor(s, models, configs)
  {
    StaticConfigsMean(s, configs);
    forall i | 0 <= i < |models| ensures ConfigFor(s, models[i], i, configs[|StaticConfigs(s)| + i]) {
      assert configs[|StaticConfigs(s)| + i] == ModelConfig(s, models, i);
      ResolvedDecides(s.overrides, s.modelRuns, models[i]);
    }
  }

  /** Static schedules plus one per runnable model; a model that has no valid payload fails the whole list. */
  method GetConfigs(s: ScheduleSettings, models: seq<ModelRef>) returns (r: Result<seq<PeriodicConfig>>)
    ensures r.Ok? <==> forall ref :: ref in models ==> ref.model != "" && ref.provider != ""
    ensures r.Ok? ==> |r.value| == |StaticConfigs(s)| + |models| && r.value[..|StaticConfigs(s)|] == StaticConfigs(s)
    ensures r.Ok? ==> forall i :: 0 <= i < |models| ==> r.value[|StaticConfigs(s)| + i] == ModelConfig(s, models, i)
    ensures r.Ok? ==> ConfigsFor(s, models, r.value)
  {
    var configs := StaticConfigs(s);
    for i := 0 to |models|
      invariant forall ref :: ref in models[..i] ==> ref.model != "" && ref.provider != ""
      invariant |configs| == |StaticConfigs(s)| + i && configs[..|StaticConfigs(s)|] == StaticConfigs(s)
      invariant forall k :: 0 <= k < i ==> configs[|StaticConfigs(s)| + k] == ModelConfig(s, models, k)
    {
      assert models[..i + 1] == models[..i] + [models[i]];
      if models[i].model == "" || models[i].provider == "" {
        return Err("model_id and provider_id are required");
      }
      var interval := ModelInterval(s.overrides, s.modelRuns, models[i]);
      configs := configs + [PeriodicConfig(interval, ModelRun(models[i]), ScheduledOptions(s.queue, i))];
    }
    assert models[..|models|] == models;
    ConfigsMean(s, models, configs);
    return Ok(configs);
  }

  /** The last ProcessIn option decides. */
  function Delay(options: seq<TaskOption>): int {
    if options == [] then 0
    else if options[|options| - 1].ProcessIn? then options[|options| - 1].delay
    else Delay(options[..|options| - 1])
  }

  predicate LastProcessIn(options: seq<TaskOption>, k: nat)
    requires k < |options|
  {
    options[k].ProcessIn? && forall j :: k < j < |options| ==> !options[j].ProcessIn?
  }

  method ProcessInDelay(options: seq<TaskOption>) returns (delay: int)
    ensures delay == Delay(options)
    ensures forall k :: 0 <= k < |options| && LastProcessIn(options, k) ==> delay == options[k].delay
    ensures (forall k :: 0 <= k < |options| ==> !options[k].ProcessIn?) ==> delay == 0
  {
    delay := 0;
    for i := 0 to |options|
      invariant delay == Delay(options[..i])
      invariant forall k :: 0 <= k < i && LastProcessIn(options[..i], k) ==> delay == options[k].delay
      invariant (forall k :: 0 <= k < i ==> !options[k].ProcessIn?) ==> delay == 0
    {
      assert options[..i + 1][..i] == options[..i];
      if options[i].ProcessIn? {
        delay := options[i].delay;
      }
    }
    assert options[..|options|] == options;
  }

  /** The model run an entry announces: its key and its time. */
  function Announced(entry: Option<SchedulerEntry>): Option<(string, Time)> {
    if entry.None? || entry.value.task.None? || !entry.value.task.value.ModelRun? || entry.value.next.None? then None
    else
      var ref := entry.value.task.value.ref;
      if ref.model == "" || ref.provider == "" then None
      else Some((KeyOf(ref), entry.value.next.value + Delay(entry.value.options)))
  }

  function KeyOf(ref: ModelRef): string { IdentityKey(ref.provider, ref.model) }

  function Announcements(entries: seq<Option<SchedulerEntry>>): seq<Option<(string, Time)>> {
    seq(|entries|, i requires 0 <= i < |entries| => Announced(entries[i]))
  }

  /** The map holds, for each announced key and no other, the earliest announced time. */
  ghost predicate EarliestOf(announced: seq<Option<(string, Time)>>, checks: map<string, Time>) {
    && (forall i :: 0 <= i < |announced| && announced[i].Some? ==>
          announced[i].value.0 in checks && checks[announced[i].value.0] <= announced[i].value.1)
    && (forall key :: key in checks ==> exists i :: 0 <= i < |announced| && announced[i] == Some((key, checks[key])))
  }

  /** Keeping the earlier time of a key already in the map. */
  function EarliestMap(announced: seq<Option<(string, Time)>>): map<string, Time> {
    if announced == [] then map[]
    else
      var before := EarliestMap(announced[..|announced| - 1]);
      match announced[|announced| - 1]
      case None => before
      case Some((key, at)) => if key !in before || at < before[key] then before[key := at] else before
  }

  /** The entry enqueues runs of a model, and its next time is known. */
  predicate RunsModel(entry: Option<SchedulerEntry>, ref: ModelRef) {
    entry.Some? && entry.value.task == Some(ModelRun(ref)) && ref.provider != "" && ref.model != "" && entry.value.next.Some?
  }

  lemma {:induction false} EachRunIsChecked(entries: seq<Option<SchedulerEntry>>, checks: map<string, Time>, i: nat, ref: ModelRef)
    requires EarliestOf(Announcements(entries), checks) && i < |entries| && RunsModel(entries[i], ref)
    ensures ref.provider + "\0" + ref.model in checks
    ensures checks[ref.provider + "\0" + ref.model] <= entries[i].value.next.value + Delay(entries[i].value.options)
  {
    assert Announcements(entries)[i].Some?;
  }

  lemma {:induction false} EachCheckIsRun(entries: seq<Option<SchedulerEntry>>, checks: map<string, Time>, key: string)
    requires EarliestOf(Announcements(entries), checks) && key in checks
    ensures exists i, ref :: 0 <= i < |entries| && RunsModel(entries[i], ref) && key == ref.provider + "\0" + ref.model
                             && checks[key] == entries[i].value.next.value + Delay(entries[i].value.options)
  {
    var announced := Announcements(entries);
    var i :| 0 <= i < |announced| && announced[i] == Some((key, checks[key]));
    var ref := entries[i].value.task.value.ref;
    assert RunsModel(entries[i], ref);
  }

  /** Each model that some entry runs is mapped to the earliest time one of its entries is due. */
  method ModelRunNextChecks(entries: seq<Option<SchedulerEntry>>) returns (nextChecks: map<string, Time>)
    ensures nextChecks == EarliestMap(Announcements(entries))
    ensures forall i, ref :: 0 <= i < |entries| && RunsModel(entries[i], ref) ==>
              && ref.provider + "\0" + ref.model in nextChecks
              && nextChecks[ref.provider + "\0" + ref.model] <= entries[i].value.next.value + Delay(entries[i].value.options)
    ensures forall key :: key in nextChecks ==>
              exists i, ref :: 0 <= i < |entries| && RunsModel(entries[i], ref) && key == ref.provider + "\0" + ref.model
                               && nextChecks[key] == entries[i].value.next.value + Delay(entries[i].value.options)
  {
    ghost var announced := Announcements(entries);
    nextChecks := map[];
    for i := 0 to |entries|
      invariant nextChecks == EarliestMap(announced[..i])
    {
      var entry := entries[i];
      assert announced[i] == Announced(entry) && announced[..i + 1][..i] == announced[..i];
      if entry.None? || entry.value.task.None? || !entry.value.task.value.ModelRun? || entry.value.next.None? {
        continue;
      }
      var ref := entry.value.task.value.ref;
      if ref.model == "" || ref.provider == "" {
        continue;
      }
      var delay := ProcessInDelay(entry.value.options);
      var next := entry.value.next.value + delay;
      var key := IdentityKey(ref.provider, ref.model);
      if key !in nextChecks || next < nextChecks[key] {
        nextChecks := nextChecks[key := next];
      }
    }
    assert announced[..|entries|] == announced;
    EarliestMapMeans(announced);
    forall i, ref | 0 <= i < |entries| && RunsModel(entries[i], ref)
      ensures ref.provider + "\0" + ref.model in nextChecks
      ensures nextChecks[ref.provider + "\0" + ref.model] <= entries[i].value.next.value + Delay(entries[i].value.options)
    {
      EachRunIsChecked(entries, nextChecks, i, ref);
    }
    forall key | key in nextChecks
      ensures exists i, ref :: 0 <= i < |entries| && RunsModel(entries[i], ref) && key == ref.provider + "\0" + ref.model
                               && nextChecks[key] == entries[i].value.next.value + Delay(entries[i].value.options)
    {
      EachCheckIsRun(entries, nextChecks, key);
    }
  }

  lemma {:induction false} EarliestMapMeans(announced: seq<Option<(string, Time)>>)
    ensures EarliestOf(announced, EarliestMap(announced))
  {
    if announced != [] {
      var init, last := announced[..|announced| - 1], announced[|announced| - 1];
      EarliestMapMeans(init);
      assert announced == init + [last];
      match last {
        case None => NothingAnnounced(init, EarliestMap(init));
        case Some((key, at)) => OneAnnounced(init, EarliestMap(init), key, at);
      }
    }
  }

  lemma {:induction false} NothingAnnounced(announced: seq<Option<(string, Time)>>, checks: map<string, Time>)
    requires EarliestOf(announced, checks)
    ensures EarliestOf(announced + [None], checks)
  {
    forall key | key in checks
      ensures exists i :: 0 <= i < |announced| + 1 && (announced + [None])[i] == Some((key, checks[key]))
    {
      var i :| 0 <= i < |announced| && announced[i] == Some((key, checks[key]));
      assert (announced + [None])[i] == Some((key, checks[key]));
    }
  }

  lemma {:induction false} OneAnnounced(announced: seq<Option<(string, Time)>>, checks: map<string, Time>, key: string, at: Time)
    requires EarliestOf(announced, checks)
    ensures EarliestOf(announced + [Some((key, at))],
                       if key !in checks || at < checks[key] then checks[key := at] else checks)
  {
    var longer := announced + [Some((key, at))];
    var after := if key !in checks || at < checks[key] then checks[key := at] else checks;
    assert longer[|announced|] == Some((key, at));
    forall other | other in after
      ensures exists i :: 0 <= i < |longer| && longer[i] == Some((other, after[other]))
    {
      if other in checks && after[other] == checks[other] {
        var i :| 0 <= i < |announced| && announced[i] == Some((other, checks[other]));
        assert longer[i] == announced[i];
      }
    }
  }

  /** The scheduler's entries for a list of configs, with the next time of each. */
  function Registered(configs: seq<PeriodicConfig>, nexts: seq<Time>): seq<Option<SchedulerEntry>>
    requires |configs| == |nexts|
  {
    seq(|configs|, i requires 0 <= i < |configs| => Some(SchedulerEntry(Some(configs[i].task), configs[i].options, Some(nexts[i]))))
  }

  /** When the i-th model is due: its entry's next time plus its position times the spacing. */
  function DueAt(nexts: seq<Time>, n: nat, i: nat): Time
    requires n + i < |nexts|
  {
    nexts[n + i] + i * 30_000_000_000
  }

  function KeysOf(models: seq<ModelRef>): seq<string> {
    seq(|models|, i requires 0 <= i < |models| => KeyOf(models[i]))
  }

  /** After n silent entries, the i-th entry announces the i-th key and nothing else. */
  ghost predicate InOrder(announced: seq<Option<(string, Time)>>, n: nat, keys: seq<string>, nexts: seq<Time>)
    requires |announced| == |nexts| == n + |keys|
  {
    forall j :: 0 <= j < |announced| ==>
      announced[j] == if j < n then None else Some((keys[j - n], DueAt(nexts, n, j - n)))
  }

  lemma {:induction false} ModelEntry(s: ScheduleSettings, models: seq<ModelRef>, i: nat, next: Time)
    requires i < |models| && models[i].model != "" && models[i].provider != ""
    ensures var c := ModelConfig(s, models, i);
            Announced(Some(SchedulerEntry(Some(c.task), c.options, Some(next))))
            == Some((KeyOf(models[i]), next + i * MODEL_RUN_SPACING))
  {
    var options := ScheduledOptions(s.queue, i);
    assert options[|options| - 1] == ProcessIn(i * MODEL_RUN_SPACING);
    assert Delay(options) == i * MODEL_RUN_SPACING;
  }

  lemma {:induction false} ConfigsAnnounceInOrder(s: ScheduleSettings, models: seq<ModelRef>, configs: seq<PeriodicConfig>,
                                                  nexts: seq<Time>)
    requires forall ref :: ref in models ==> ref.provider != "" && ref.model != ""
    requires |configs| == |nexts| == |StaticConfigs(s)| + |models| && configs[..|StaticConfigs(s)|] == StaticConfigs(s)
    requires forall i :: 0 <= i < |models| ==> configs[|StaticConfigs(s)| + i] == ModelConfig(s, models, i)
    ensures InOrder(Announcements(Registered(configs, nexts)), |StaticConfigs(s)|, KeysOf(models), nexts)
  {
    var entries, n := Registered(configs, nexts), |StaticConfigs(s)|;
    assert forall j :: 0 <= j < n ==> configs[j] == configs[..n][j];
    forall j | 0 <= j < |entries|
      ensures Announced(entries[j]) == if j < n then None else Some((KeysOf(models)[j - n], DueAt(nexts, n, j - n)))
    {
      if j >= n {
        var i := j - n;
        assert models[i] in models && configs[n + i] == ModelConfig(s, models, i);
        ModelEntry(s, models, i, nexts[j]);
      }
    }
  }

  lemma {:induction false} KeysDistinct(models: seq<ModelRef>)
    requires Distinct(models) && forall ref :: ref in models ==> Slug(ref.provider)
    ensures Distinct(KeysOf(models))
  {
    forall i, j | 0 <= i < j < |models| ensures KeysOf(models)[i] != KeysOf(models)[j] {
      assert models[i] in models && models[j] in models;
      if KeyOf(models[i]) == KeyOf(models[j]) {
        IdentityKeyInjective(models[i].provider, models[i].model, models[j].provider, models[j].model);
      }
    }
  }

  /** Keys announced once each are mapped to the times they were announced with, and no others are. */
  lemma {:induction false} EarliestInOrder(announced: seq<Option<(string, Time)>>, n: nat, keys: seq<string>,
                                           nexts: seq<Time>, checks: map<string, Time>)
    requires Distinct(keys) && |announced| == |nexts| == n + |keys|
    requires InOrder(announced, n, keys, nexts) && EarliestOf(announced, checks)
    ensures checks.Keys == set key | key in keys
    ensures forall i :: 0 <= i < |keys| ==> keys[i] in checks && checks[keys[i]] == DueAt(nexts, n, i)
  {
    forall i | 0 <= i < |keys| ensures keys[i] in checks && checks[keys[i]] == DueAt(nexts, n, i) {
      assert announced[n + i] == Some((keys[i], DueAt(nexts, n, i)));
      var j :| 0 <= j < |announced| && announced[j] == Some((keys[i], checks[keys[i]]));
      assert keys[j - n] == keys[i];
    }
    forall key | key in checks ensures key in keys {
      var j :| 0 <= j < |announced| && announced[j] == Some((key, checks[key]));
      assert keys[j - n] == key;
    }
  }

  lemma {:induction false} DistinctCount<T>(s: seq<T>)
    requires Distinct(s)
    ensures |set x | x in s| == |s|
  {
    if s != [] {
      var init, last := s[..|s| - 1], s[|s| - 1];
      DistinctCount(init);
      assert s == init + [last] && last !in init;
      assert (set x | x in s) == (set x | x in init) + {last};
    }
  }

  /**
   * Reading back the registered configs yields exactly one key per runnable model, and its value is
   * the entry's next time plus the model's position times the spacing.
   */
  lemma {:induction false} ReadBack(s: ScheduleSettings, models: seq<ModelRef>, configs: seq<PeriodicConfig>, nexts: seq<Time>)
    requires Distinct(models) && forall ref :: ref in models ==> Slug(ref.provider) && ref.model != ""
    requires |configs| == |nexts| == |StaticConfigs(s)| + |models| && configs[..|StaticConfigs(s)|] == StaticConfigs(s)
    requires forall i :: 0 <= i < |models| ==> configs[|StaticConfigs(s)| + i] == ModelConfig(s, models, i)
    ensures var checks, keys := EarliestMap(Announcements(Registered(configs, nexts))), KeysOf(models);
            && Distinct(keys) && checks.Keys == (set key | key in keys) && |checks| == |models|
            && (forall i :: 0 <= i < |models| ==>
                  keys[i] in checks && checks[keys[i]] == DueAt(nexts, |StaticConfigs(s)|, i))
  {
    var announced, keys := Announcements(Registered(configs, nexts)), KeysOf(models);
    KeysDistinct(models);
    ConfigsAnnounceInOrder(s, models, configs, nexts);
    EarliestMapMeans(announced);
    EarliestInOrder(announced, |StaticConfigs(s)|, keys, nexts, EarliestMap(announced));
    DistinctCount(keys);
  }
}
