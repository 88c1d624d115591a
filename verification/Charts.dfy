/** Dashboard charts: samples grouped into time buckets. Times are nanoseconds, values are exact. */
module Charts {
  import opened Basics

  /** The columns of a metric sample that charts use. */
  datatype Sample = Sample(at: Time, modelId: string, group: string, value: real)

  /** One series; a missing cell is null. */
  datatype Dataset = Dataset(name: string, data: seq<Option<real>>)

  const DEFAULT_INTERVAL := 900000000000  // 15 minutes

  /** The buckets of one chart and the models it admits; no model named admits all. */
  datatype Grid = Grid(allowed: seq<string>, since: Time, interval: int, buckets: nat) {
    ghost predicate Valid() { interval > 0 && buckets > 0 }
  }

  /** math.Ceil of the exact quotient */
  function Ceiling(a: int, b: int): int
    requires b > 0
  {
    -(-a / b)
  }

  function GridFor(allowedModels: seq<string>, since: Time, now: Time, interval: int): (grid: Grid)
    ensures grid.Valid()
  {
    var width := if interval <= 0 then DEFAULT_INTERVAL else interval;
    Grid(allowedModels, since, width, Max(1, Ceiling(now - since, width) + 1))
  }

  // ----- where a sample belongs -----

  function Index(grid: Grid, s: Sample): int
    requires grid.Valid()
  {
    Quotient(s.at - grid.since, grid.interval)
  }

  predicate Admitted(grid: Grid, s: Sample) {
    grid.allowed == [] || s.modelId in grid.allowed
  }

  predicate Accepted(grid: Grid, s: Sample)
    requires grid.Valid()
  {
    Admitted(grid, s) && 0 <= Index(grid, s) < grid.buckets
  }

  function GroupOf(s: Sample): string {
    if s.group == "" then "all" else s.group
  }

  function BucketStart(grid: Grid, b: int): Time {
    grid.since + b * grid.interval
  }

  /** The half-open interval of a bucket. */
  predicate Contains(grid: Grid, b: int, at: Time) {
    BucketStart(grid, b) <= at < BucketStart(grid, b + 1)
  }

  /**
   * A sample at or after the start is in the bucket that contains it, and that bucket is in the
   * chart when the sample is not later than now.
   */
  lemma {:induction false} BucketContains(allowedModels: seq<string>, since: Time, now: Time, interval: int, s: Sample)
    ensures var grid := GridFor(allowedModels, since, now, interval);
            && (since <= s.at ==> Contains(grid, Index(grid, s), s.at))
            && (since <= s.at <= now && Admitted(grid, s) ==> Accepted(grid, s))
  {
    var grid := GridFor(allowedModels, since, now, interval);
    var w := grid.interval;
    if since <= s.at {
      FloorMeans(s.at - since, w);
      if s.at <= now {
        FloorMeans(-(now - since), w);
        var last := Ceiling(now - since, w);
        assert last * w >= now - since;
        NotBeyond(Index(grid, s), last, w, s.at - since);
      }
    }
  }

  lemma {:induction false} NotBeyond(index: int, last: int, w: int, offset: int)
    requires w > 0 && index * w <= offset <= last * w
    ensures index <= last
  {
    assert index > last ==> index * w >= (last + 1) * w;
  }

  /**
   * Division toward zero also puts samples from the interval before the start into the first
   * bucket: an accepted sample is in the bucket that contains it if and only if it is not early.
   */
  lemma {:induction false} AcceptedContainedIff(grid: Grid, s: Sample)
    requires grid.Valid() && Accepted(grid, s)
    ensures Contains(grid, Index(grid, s), s.at) <==> grid.since <= s.at
    ensures s.at < grid.since ==> Index(grid, s) == 0 && grid.since - grid.interval < s.at
  {
    FloorMeans(Abs(s.at - grid.since), grid.interval);
  }

  /** Such a sample: half an interval early, yet drawn. */
  lemma {:induction false} EarlySampleIsDrawn()
    ensures var grid, s := GridFor([], 0, 100, 10), Sample(-5, "m", "g", 1.0);
            Accepted(grid, s) && !exists b :: 0 <= b < grid.buckets && Contains(grid, b, s.at)
  {
    var grid, s := GridFor([], 0, 100, 10), Sample(-5, "m", "g", 1.0);
    AcceptedContainedIff(grid, s);
    forall b | 0 <= b < grid.buckets ensures !Contains(grid, b, s.at) {
      assert BucketStart(grid, b) >= 0;
    }
  }

  // ----- what a cell aggregates -----

  datatype Aggregate = Aggregate(sum: real, count: nat)

  const NOTHING := Aggregate(0.0, 0)

  function Add(a: Aggregate, value: real): Aggregate {
    Aggregate(a.sum + value, a.count + 1)
  }

  predicate Falls(grid: Grid, s: Sample, group: string, b: int)
    requires grid.Valid()
  {
    Accepted(grid, s) && GroupOf(s) == group && Index(grid, s) == b
  }

  /** The samples of one group in one bucket, added up. */
  function CellOf(grid: Grid, samples: seq<Sample>, group: string, b: int): Aggregate
    requires grid.Valid()
  {
    if samples == [] then NOTHING
    else
      var last, before := samples[|samples| - 1], CellOf(grid, samples[..|samples| - 1], group, b);
      if Falls(grid, last, group, b) then Add(before, last.value) else before
  }

  /** The cell drawn for an aggregate. */
  function Drawn(a: Aggregate, summed: bool): Option<real> {
    if summed then Some(a.sum) else if a.count == 0 then None else Some(a.sum / a.count as real)
  }

  function Groups(grid: Grid, samples: seq<Sample>): set<string>
    requires grid.Valid()
  {
    set s | s in samples && Accepted(grid, s) :: GroupOf(s)
  }

  /** The byte order of strings: by the first difference, a prefix first. */
  predicate Less(a: string, b: string) {
    if b == "" then false
    else if a == "" then true
    else if a[0] == b[0] then Less(a[1..], b[1..])
    else a[0] < b[0]
  }

  ghost predicate Sorted(names: seq<string>) {
    forall i, j :: 0 <= i < j < |names| ==> Less(names[i], names[j])
  }

  function Names(datasets: seq<Dataset>): seq<string> {
    seq(|datasets|, i requires 0 <= i < |datasets| => datasets[i].name)
  }

  /** The chart of a set of samples: a series for each group, in order, with a cell for each bucket. */
  ghost predicate Charted(grid: Grid, samples: seq<Sample>, summed: bool, datasets: seq<Dataset>)
    requires grid.Valid()
  {
    && Sorted(Names(datasets))
    && (forall name :: name in Names(datasets) <==> name in Groups(grid, samples))
    && (forall i :: 0 <= i < |datasets| ==> |datasets[i].data| == grid.buckets)
    && (forall i, b :: 0 <= i < |datasets| && 0 <= b < grid.buckets ==>
          datasets[i].data[b] == Drawn(CellOf(grid, samples, datasets[i].name, b), summed))
  }

  // ----- the same, written over the samples -----

  /** The sample is admitted, of this group, and within this bucket; the first bucket also draws the interval before it. */
  predicate InCell(allowedModels: seq<string>, since: Time, width: int, name: string, b: int, s: Sample) {
    && (allowedModels == [] || s.modelId in allowedModels)
    && name == (if s.group == "" then "all" else s.group)
    && (b * width <= s.at - since < (b + 1) * width || (b == 0 && -width < s.at - since < 0))
  }

  function SumOf(samples: seq<Sample>): real {
    if samples == [] then 0.0 else SumOf(samples[..|samples| - 1]) + samples[|samples| - 1].value
  }

  lemma {:induction false} SameBucket(x: int, y: int, w: int, a: int)
    requires w > 0 && x * w <= a < (x + 1) * w && y * w <= a < (y + 1) * w
    ensures x == y
  {
    NotAbove(x, y, w);
    NotAbove(y, x, w);
  }

  lemma {:induction false} NotAbove(x: int, y: int, w: int)
    requires w > 0 && x * w < (y + 1) * w
    ensures x <= y
  {
  }

  lemma {:induction false} QuotientIs(a: int, w: int, b: nat)
    requires w > 0
    ensures Quotient(a, w) == b <==> b * w <= a < (b + 1) * w || (b == 0 && -w < a < 0)
  {
    FloorMeans(Abs(a), w);
    assert b * w >= 0;
    if a < 0 {
      if -a < w {
        SameBucket(-a / w, 0, w, -a);
      }
    } else if b * w <= a < (b + 1) * w {
      SameBucket(a / w, b, w, a);
    }
  }

  lemma {:induction false} FallsIff(grid: Grid, s: Sample, group: string, b: nat)
    requires grid.Valid() && b < grid.buckets
    ensures Falls(grid, s, group, b) <==> InCell(grid.allowed, grid.since, grid.interval, group, b, s)
  {
    QuotientIs(s.at - grid.since, grid.interval, b);
  }

  lemma {:induction false} SumMore(cell: seq<Sample>, s: Sample)
    ensures SumOf(cell + [s]) == SumOf(cell) + s.value
  {
    assert (cell + [s])[..|cell|] == cell;
  }

  lemma {:induction false} CellIsFilter(grid: Grid, samples: seq<Sample>, group: string, b: nat)
    requires grid.Valid() && b < grid.buckets
    ensures var cell := Filter(samples, (s: Sample) => InCell(grid.allowed, grid.since, grid.interval, group, b, s));
            CellOf(grid, samples, group, b) == Aggregate(SumOf(cell), |cell|)
  {
    if samples != [] {
      var init, last := samples[..|samples| - 1], samples[|samples| - 1];
      CellIsFilter(grid, init, group, b);
      FallsIff(grid, last, group, b);
      var cell := Filter(init, (s: Sample) => InCell(grid.allowed, grid.since, grid.interval, group, b, s));
      SumMore(cell, last);
      assert cell + [] == cell;
    }
  }

  /** What one cell shows. */
  function CellValue(cell: seq<Sample>, summed: bool): Option<real> {
    if summed then Some(SumOf(cell)) else if cell == [] then None else Some(SumOf(cell) / |cell| as real)
  }

  ghost predicate CellsShown(allowedModels: seq<string>, since: Time, width: int, n: nat, samples: seq<Sample>, summed: bool,
                             datasets: seq<Dataset>)
  {
    && (forall i :: 0 <= i < |datasets| ==> |datasets[i].data| == n)
    && (forall i, b :: 0 <= i < |datasets| && 0 <= b < n ==>
          datasets[i].data[b]
          == CellValue(Filter(samples, (s: Sample) => InCell(allowedModels, since, width, datasets[i].name, b, s)), summed))
  }

  /** A series for each group some sample of the chart belongs to. */
  ghost predicate GroupsShown(allowedModels: seq<string>, since: Time, width: int, n: nat, samples: seq<Sample>,
                              datasets: seq<Dataset>)
  {
    forall name :: name in Names(datasets) <==>
      exists s, b :: s in samples && 0 <= b < n && InCell(allowedModels, since, width, name, b, s)
  }

  lemma {:induction false} ChartShowsCells(grid: Grid, samples: seq<Sample>, summed: bool, datasets: seq<Dataset>)
    requires grid.Valid() && Charted(grid, samples, summed, datasets)
    ensures CellsShown(grid.allowed, grid.since, grid.interval, grid.buckets, samples, summed, datasets)
  {
    forall i, b | 0 <= i < |datasets| && 0 <= b < grid.buckets
      ensures datasets[i].data[b]
              == CellValue(Filter(samples, (s: Sample) => InCell(grid.allowed, grid.since, grid.interval, datasets[i].name, b, s)),
                           summed)
    {
      CellIsFilter(grid, samples, datasets[i].name, b);
    }
  }

  lemma {:induction false} ChartShowsGroups(grid: Grid, samples: seq<Sample>, summed: bool, datasets: seq<Dataset>)
    requires grid.Valid() && Charted(grid, samples, summed, datasets)
    ensures GroupsShown(grid.allowed, grid.since, grid.interval, grid.buckets, samples, datasets)
  {
    forall name
      ensures name in Names(datasets) <==>
                exists s, b :: s in samples && 0 <= b < grid.buckets && InCell(grid.allowed, grid.since, grid.interval, name, b, s)
    {
      if name in Groups(grid, samples) {
        var s :| s in samples && Accepted(grid, s) && GroupOf(s) == name;
        FallsIff(grid, s, name, Index(grid, s));
        assert InCell(grid.allowed, grid.since, grid.interval, name, Index(grid, s), s);
      }
      forall s, b | s in samples && 0 <= b < grid.buckets && InCell(grid.allowed, grid.since, grid.interval, name, b, s)
        ensures name in Groups(grid, samples)
      {
        FallsIff(grid, s, name, b);
        assert Accepted(grid, s);
      }
    }
  }

  // ----- sorting names -----

  /** The order of names: at the first difference the smaller character, or the end of the text, comes first. */
  lemma {:induction false} LessIff(a: string, b: string)
    ensures Less(a, b) <==>
              exists k :: 0 <= k <= |a| && k < |b| && a[..k] == b[..k] && (k == |a| || a[k] < b[k])
  {
    if a != "" && b != "" && a[0] == b[0] {
      LessIff(a[1..], b[1..]);
      assert forall k :: 0 < k <= |a| && k <= |b| ==> a[1..][..k - 1] == a[..k][1..] && b[1..][..k - 1] == b[..k][1..];
      if Less(a, b) {
        var k :| 0 <= k <= |a| - 1 && k < |b| - 1 && a[1..][..k] == b[1..][..k] && (k == |a| - 1 || a[1..][k] < b[1..][k]);
        assert a[..k + 1] == [a[0]] + a[1..][..k] && b[..k + 1] == [b[0]] + b[1..][..k];
      }
      forall k | 0 <= k <= |a| && k < |b| && a[..k] == b[..k] && (k == |a| || a[k] < b[k]) ensures Less(a, b) {
        assert k > 0;
        assert a[1..][..k - 1] == b[1..][..k - 1];
      }
    } else if Less(a, b) {
      assert a[..0] == b[..0];
    }
  }

  lemma {:induction false} LessIsStrict(a: string, b: string)
    ensures !(Less(a, b) && Less(b, a)) && (Less(a, b) || Less(b, a) || a == b) && !Less(a, a)
  {
    if a != "" && b != "" && a[0] == b[0] {
      LessIsStrict(a[1..], b[1..]);
      assert a == [a[0]] + a[1..] && b == [b[0]] + b[1..];
    }
    if a != "" {
      LessIsStrict(a[1..], a[1..]);
    }
  }

  lemma {:induction false} LessTransitive(a: string, b: string, c: string)
    requires Less(a, b) && Less(b, c)
    ensures Less(a, c)
  {
    if a != "" && a[0] == b[0] && b[0] == c[0] {
      LessTransitive(a[1..], b[1..], c[1..]);
    }
  }

  /** Where a name belongs among sorted ones. */
  function Place(names: seq<string>, name: string): (r: seq<string>)
    ensures |r| == |names| + 1
  {
    if names != [] && Less(names[0], name) then [names[0]] + Place(names[1..], name) else [name] + names
  }

  lemma {:induction false} PlaceKeepsSorted(names: seq<string>, name: string)
    requires Sorted(names) && name !in names
    ensures Sorted(Place(names, name))
    ensures forall x :: x in Place(names, name) <==> x == name || x in names
  {
    if names == [] || !Less(names[0], name) {
      var r := Place(names, name);
      assert r == [name] + names;
      assert names != [] ==> names[0] in names;
      forall j | 0 <= j < |names| ensures Less(name, names[j]) {
        LessIsStrict(names[0], name);
        if j > 0 {
          LessTransitive(name, names[0], names[j]);
        }
      }
      assert forall j :: 0 < j < |r| ==> r[j] == names[j - 1];
    } else {
      var first, rest := names[0], names[1..];
      assert names == [first] + rest && forall x :: x in rest ==> x in names;
      PlaceKeepsSorted(rest, name);
      var placed := Place(rest, name);
      forall j | 0 <= j < |placed| ensures Less(first, placed[j]) {
        assert placed[j] in placed;
        if placed[j] != name {
          var i :| 0 <= i < |rest| && rest[i] == placed[j];
          assert names[i + 1] == placed[j];
        }
      }
      var r := Place(names, name);
      assert r == [first] + placed;
      assert forall j :: 0 < j < |r| ==> r[j] == placed[j - 1];
    }
  }

  /** sort.Strings of the keys of a map, which come in any order. */
  method SortedKeys<V>(groups: map<string, V>) returns (names: seq<string>)
    ensures Sorted(names) && (forall x :: x in names <==> x in groups)
  {
    names := [];
    var rest := groups.Keys;
    while rest != {}
      invariant Sorted(names) && rest <= groups.Keys
      invariant forall x :: x in names <==> x in groups && x !in rest
      decreases |rest|
    {
      var name :| name in rest;
      PlaceKeepsSorted(names, name);
      names := Place(names, name);
      rest := rest - {name};
    }
  }

  // ----- the bucketing loop -----

  /** The aggregate table while the loop runs; a group without a row holds nothing. */
  function At(groups: map<string, seq<Aggregate>>, group: string, b: int): Aggregate {
    if group in groups && 0 <= b < |groups[group]| then groups[group][b] else NOTHING
  }

  ghost predicate Tallied(grid: Grid, samples: seq<Sample>, groups: map<string, seq<Aggregate>>)
    requires grid.Valid()
  {
    && groups.Keys == Groups(grid, samples)
    && (forall g :: g in groups ==> |groups[g]| == grid.buckets)
    && (forall g, b :: 0 <= b < grid.buckets ==> At(groups, g, b) == CellOf(grid, samples, g, b))
  }

  lemma {:induction false} TallySkipped(grid: Grid, samples: seq<Sample>, s: Sample, groups: map<string, seq<Aggregate>>)
    requires grid.Valid() && Tallied(grid, samples, groups) && !Accepted(grid, s)
    ensures Tallied(grid, samples + [s], groups)
  {
    assert (samples + [s])[..|samples|] == samples;
    assert Groups(grid, samples + [s]) == Groups(grid, samples);
  }

  lemma {:induction false} TallyAdded(grid: Grid, samples: seq<Sample>, s: Sample,
                                      before: map<string, seq<Aggregate>>, groups: map<string, seq<Aggregate>>)
    requires grid.Valid() && Tallied(grid, samples, before) && Accepted(grid, s)
    requires var g := GroupOf(s); groups.Keys == before.Keys + {g} && |groups[g]| == grid.buckets
    requires forall g :: g in before && g != GroupOf(s) ==> groups[g] == before[g]
    requires forall b :: 0 <= b < grid.buckets ==>
               At(groups, GroupOf(s), b) == var cell := At(before, GroupOf(s), b);
                                            if b == Index(grid, s) then Add(cell, s.value) else cell
    ensures Tallied(grid, samples + [s], groups)
  {
    assert (samples + [s])[..|samples|] == samples;
    assert s in samples + [s];
    assert Groups(grid, samples + [s]) == Groups(grid, samples) + {GroupOf(s)};
    forall g, b | 0 <= b < grid.buckets ensures At(groups, g, b) == CellOf(grid, samples + [s], g, b) {
      assert At(before, g, b) == CellOf(grid, samples, g, b);
    }
  }

  lemma {:induction false} EmptyCell(grid: Grid, samples: seq<Sample>, group: string, b: int)
    requires grid.Valid()
    ensures CellOf(grid, samples, group, b).count == 0 ==> CellOf(grid, samples, group, b) == NOTHING
  {
    if samples != [] {
      EmptyCell(grid, samples[..|samples| - 1], group, b);
    }
  }

  /** The first loop of bucketSamples: every accepted sample is added to its group and bucket. */
  method Tally(grid: Grid, samples: seq<Sample>) returns (groups: map<string, seq<Aggregate>>)
    requires grid.Valid()
    ensures Tallied(grid, samples, groups)
  {
    groups := map[];
    for i := 0 to |samples|
      invariant Tallied(grid, samples[..i], groups)
    {
      var s := samples[i];
      assert samples[..i + 1] == samples[..i] + [s];
      var index := Index(grid, s);
      if !Admitted(grid, s) || index < 0 || index >= grid.buckets {
        TallySkipped(grid, samples[..i], s, groups);
      } else {
        ghost var before := groups;
        var group := GroupOf(s);
        if group !in groups {
          groups := groups[group := seq(grid.buckets, _ => NOTHING)];
        }
        groups := groups[group := groups[group][index := Add(groups[group][index], s.value)]];
        TallyAdded(grid, samples[..i], s, before, groups);
      }
    }
    assert samples[..|samples|] == samples;
  }

  /** The second loop of bucketSamples: one series a group, in the order of the names. */
  method Draw(ghost grid: Grid, ghost samples: seq<Sample>, groups: map<string, seq<Aggregate>>, summed: bool)
      returns (datasets: seq<Dataset>)
    requires grid.Valid() && Tallied(grid, samples, groups)
    ensures Charted(grid, samples, summed, datasets)
  {
    var names := SortedKeys(groups);
    datasets := [];
    for i := 0 to |names|
      invariant |datasets| == i && forall k :: 0 <= k < i ==> datasets[k].name == names[k]
      invariant forall k :: 0 <= k < i ==> |datasets[k].data| == grid.buckets
      invariant forall k, b :: 0 <= k < i && 0 <= b < grid.buckets ==>
                  datasets[k].data[b] == Drawn(CellOf(grid, samples, names[k], b), summed)
    {
      var row := groups[names[i]];
      forall b | 0 <= b < |row|
        ensures row[b] == CellOf(grid, samples, names[i], b) && (row[b].count == 0 ==> row[b].sum == 0.0)
      {
        assert row[b] == At(groups, names[i], b);
        EmptyCell(grid, samples, names[i], b);
      }
      var data := DrawRow(row, summed);
      datasets := datasets + [Dataset(names[i], data)];
    }
    assert Names(datasets) == names;
  }

  /** bucketSamples; the labels are the times they are formatted from. */
  method BucketSamples(samples: seq<Sample>, allowedModels: seq<string>, since: Time, now: Time, interval: int, summed: bool)
      returns (labels: seq<Time>, datasets: seq<Dataset>)
    ensures var grid := GridFor(allowedModels, since, now, interval);
            && Charted(grid, samples, summed, datasets)
            && |labels| == grid.buckets
            && (forall b :: 0 <= b < grid.buckets ==> labels[b] == BucketStart(grid, b))
    ensures var width, n := if interval <= 0 then 900_000_000_000 else interval, |labels|;
            && n >= 1 && (now <= since ==> n == 1) && (since < now ==> (n - 2) * width < now - since <= (n - 1) * width)
            && (forall b :: 0 <= b < n ==> labels[b] == since + b * width)
            && Sorted(Names(datasets)) && GroupsShown(allowedModels, since, width, n, samples, datasets)
            && CellsShown(allowedModels, since, width, n, samples, summed, datasets)
  {
    GridSize(since, now, if interval <= 0 then 900_000_000_000 else interval);
    var grid := GridFor(allowedModels, since, now, interval);
    labels := seq(grid.buckets, b => BucketStart(grid, b));
    var groups := Tally(grid, samples);
    datasets := Draw(grid, samples, groups, summed);
    ChartShowsCells(grid, samples, summed, datasets);
    ChartShowsGroups(grid, samples, summed, datasets);
  }

  lemma {:induction false} GridSize(since: Time, now: Time, width: int)
    requires width > 0
    ensures var n := Max(1, Ceiling(now - since, width) + 1);
            (now <= since ==> n == 1) && (since < now ==> (n - 2) * width < now - since <= (n - 1) * width)
  {
    var c := Ceiling(now - since, width);
    FloorMeans(-(now - since), width);
    if since < now {
      assert c * width >= now - since;
      NotBeyond(1, c + 1, width, width);
    } else {
      NotBeyond(0, -(now - since) / width, width, 0);
    }
  }

  /** The cells of one series: zero or null first, then a value wherever samples fell. */
  method DrawRow(row: seq<Aggregate>, summed: bool) returns (data: seq<Option<real>>)
    requires forall b :: 0 <= b < |row| && row[b].count == 0 ==> row[b].sum == 0.0
    ensures |data| == |row| && forall b :: 0 <= b < |row| ==> data[b] == Drawn(row[b], summed)
  {
    data := seq(|row|, _ => if summed then Some(0.0) else None);
    for b := 0 to |row|
      invariant |data| == |row|
      invariant forall k :: 0 <= k < b ==> data[k] == Drawn(row[k], summed)
      invariant forall k :: b <= k < |row| ==> data[k] == if summed then Some(0.0) else None
    {
      if row[b].count != 0 {
        data := data[b := Some(if summed then row[b].sum else row[b].sum / row[b].count as real)];
      }
    }
  }

  // ----- the chart depends on the samples alone, not on their order -----

  lemma {:induction false} SortedUnique(a: seq<string>, b: seq<string>)
    requires Sorted(a) && Sorted(b) && forall x :: x in a <==> x in b
    ensures a == b
  {
    assert b == [] || b[0] in b;
    if a == [] {
    } else {
      assert a[0] in a && a[0] in b;
      FirstIsLeast(a, b);
      FirstIsLeast(b, a);
      LessIsStrict(a[0], b[0]);
      TailElements(a);
      TailElements(b);
      SortedUnique(a[1..], b[1..]);
      assert a == [a[0]] + a[1..] && b == [b[0]] + b[1..];
    }
  }

  lemma {:induction false} FirstIsLeast(a: seq<string>, b: seq<string>)
    requires Sorted(a) && a != [] && b != [] && forall x :: x in b ==> x in a
    ensures a[0] == b[0] || Less(a[0], b[0])
  {
    assert b[0] in b;
    var i :| 0 <= i < |a| && a[i] == b[0];
  }

  lemma {:induction false} TailElements(a: seq<string>)
    requires Sorted(a) && a != []
    ensures forall x :: x in a[1..] <==> x in a && x != a[0]
  {
    forall i | 0 < i < |a| ensures a[i] != a[0] {
      LessIsStrict(a[0], a[i]);
    }
    assert a == [a[0]] + a[1..];
  }

  /** At most one list of series is the chart of some samples. */
  lemma {:induction false} ChartUnique(grid: Grid, samples: seq<Sample>, summed: bool, ds: seq<Dataset>, es: seq<Dataset>)
    requires grid.Valid() && Charted(grid, samples, summed, ds) && Charted(grid, samples, summed, es)
    ensures ds == es
  {
    SortedUnique(Names(ds), Names(es));
    assert |ds| == |Names(ds)| == |es|;
    forall i | 0 <= i < |ds| ensures ds[i] == es[i] {
      assert Names(ds)[i] == Names(es)[i];
      assert ds[i].data == es[i].data;
    }
  }

  function Without(samples: seq<Sample>, k: nat): seq<Sample>
    requires k < |samples|
  {
    samples[..k] + samples[k + 1..]
  }

  lemma {:induction false} CellWithout(grid: Grid, samples: seq<Sample>, k: nat, group: string, b: int)
    requires grid.Valid() && k < |samples|
    ensures CellOf(grid, samples, group, b)
            == var rest := CellOf(grid, Without(samples, k), group, b);
               if Falls(grid, samples[k], group, b) then Add(rest, samples[k].value) else rest
  {
    var last := |samples| - 1;
    if k == last {
      assert Without(samples, k) == samples[..last];
    } else {
      CellWithout(grid, samples[..last], k, group, b);
      assert Without(samples, k)[..last - 1] == Without(samples[..last], k);
    }
  }

  lemma {:induction false} OneLess<T>(a: multiset<T>, b: multiset<T>, x: T)
    requires a + multiset{x} == b + multiset{x}
    ensures a == b
  {
    forall y ensures a[y] == b[y] {
      assert (a + multiset{x})[y] == (b + multiset{x})[y];
    }
  }

  lemma {:induction false} CellPermuted(grid: Grid, xs: seq<Sample>, ys: seq<Sample>, group: string, b: int)
    requires grid.Valid() && multiset(xs) == multiset(ys)
    ensures CellOf(grid, xs, group, b) == CellOf(grid, ys, group, b)
  {
    if xs == [] {
      assert |ys| == |multiset(ys)| == 0;
    } else {
      var init, last := xs[..|xs| - 1], xs[|xs| - 1];
      assert xs == init + [last];
      assert last in multiset(ys);
      var k :| 0 <= k < |ys| && ys[k] == last;
      assert ys == ys[..k] + [last] + ys[k + 1..];
      assert multiset(xs) == multiset(init) + multiset{last};
      assert multiset(ys) == multiset(Without(ys, k)) + multiset{last};
      OneLess(multiset(init), multiset(Without(ys, k)), last);
      CellPermuted(grid, init, Without(ys, k), group, b);
      CellWithout(grid, ys, k, group, b);
    }
  }

  lemma {:induction false} ChartIgnoresOrder(grid: Grid, xs: seq<Sample>, ys: seq<Sample>, summed: bool,
                                             ds: seq<Dataset>, es: seq<Dataset>)
    requires grid.Valid() && multiset(xs) == multiset(ys)
    requires Charted(grid, xs, summed, ds) && Charted(grid, ys, summed, es)
    ensures ds == es
  {
    forall s ensures s in xs <==> s in ys {
      assert s in multiset(xs) <==> s in multiset(ys);
    }
    forall i, b | 0 <= i < |es| && 0 <= b < grid.buckets
      ensures es[i].data[b] == Drawn(CellOf(grid, xs, es[i].name, b), summed)
    {
      CellPermuted(grid, xs, ys, es[i].name, b);
    }
    ChartUnique(grid, xs, summed, ds, es);
  }

  // ----- nothing accepted is lost or counted twice -----

  function Plus(x: Aggregate, y: Aggregate): Aggregate {
    Aggregate(x.sum + y.sum, x.count + y.count)
  }

  /** The first n buckets of a group together. */
  function RowTotal(grid: Grid, samples: seq<Sample>, group: string, n: nat): Aggregate
    requires grid.Valid()
  {
    if n == 0 then NOTHING else Plus(RowTotal(grid, samples, group, n - 1), CellOf(grid, samples, group, n - 1))
  }

  /** All buckets of all named groups together. */
  function TableTotal(grid: Grid, samples: seq<Sample>, names: seq<string>): Aggregate
    requires grid.Valid()
  {
    if names == [] then NOTHING
    else Plus(TableTotal(grid, samples, names[..|names| - 1]),
              RowTotal(grid, samples, names[|names| - 1], grid.buckets))
  }

  /** All accepted samples together. */
  function AcceptedTotal(grid: Grid, samples: seq<Sample>): Aggregate
    requires grid.Valid()
  {
    if samples == [] then NOTHING
    else
      var last, before := samples[|samples| - 1], AcceptedTotal(grid, samples[..|samples| - 1]);
      if Accepted(grid, last) then Add(before, last.value) else before
  }

  lemma {:induction false} RowAdds(grid: Grid, samples: seq<Sample>, s: Sample, group: string, n: nat)
    requires grid.Valid()
    ensures RowTotal(grid, samples + [s], group, n)
            == var row := RowTotal(grid, samples, group, n);
               if Accepted(grid, s) && GroupOf(s) == group && Index(grid, s) < n then Add(row, s.value) else row
  {
    assert (samples + [s])[..|samples|] == samples;
    if n > 0 {
      RowAdds(grid, samples, s, group, n - 1);
    }
  }

  lemma {:induction false} TableAdds(grid: Grid, samples: seq<Sample>, s: Sample, names: seq<string>)
    requires grid.Valid() && Distinct(names)
    ensures TableTotal(grid, samples + [s], names)
            == var table := TableTotal(grid, samples, names);
               if Accepted(grid, s) && GroupOf(s) in names then Add(table, s.value) else table
  {
    if names != [] {
      var init, last := names[..|names| - 1], names[|names| - 1];
      assert names == init + [last];
      TableAdds(grid, samples, s, init);
      RowAdds(grid, samples, s, last, grid.buckets);
    }
  }

  lemma {:induction false} NothingInRow(grid: Grid, group: string, n: nat)
    requires grid.Valid()
    ensures RowTotal(grid, [], group, n) == NOTHING
  {
    if n > 0 {
      NothingInRow(grid, group, n - 1);
    }
  }

  lemma {:induction false} NothingInTable(grid: Grid, names: seq<string>)
    requires grid.Valid()
    ensures TableTotal(grid, [], names) == NOTHING
  {
    if names != [] {
      NothingInTable(grid, names[..|names| - 1]);
      NothingInRow(grid, names[|names| - 1], grid.buckets);
    }
  }

  /** Over all groups and buckets, counts and sums are those of the accepted samples. */
  lemma {:induction false} TotalsConserved(grid: Grid, samples: seq<Sample>, names: seq<string>)
    requires grid.Valid() && Distinct(names) && forall g :: g in Groups(grid, samples) ==> g in names
    ensures TableTotal(grid, samples, names) == AcceptedTotal(grid, samples)
  {
    if samples == [] {
      NothingInTable(grid, names);
    } else {
      var init, last := samples[..|samples| - 1], samples[|samples| - 1];
      assert samples == init + [last];
      TotalsConserved(grid, init, names);
      TableAdds(grid, init, last, names);
      assert last in samples;
    }
  }

  lemma {:induction false} SortedDistinct(names: seq<string>)
    requires Sorted(names)
    ensures Distinct(names)
  {
    forall i, j | 0 <= i < j < |names| ensures names[i] != names[j] {
      LessIsStrict(names[i], names[j]);
    }
  }

  function CellsTotal(data: seq<Option<real>>): real {
    if data == [] then 0.0
    else CellsTotal(data[..|data| - 1]) + match data[|data| - 1] case None => 0.0 case Some(v) => v
  }

  function DrawnTotal(datasets: seq<Dataset>): real {
    if datasets == [] then 0.0
    else DrawnTotal(datasets[..|datasets| - 1]) + CellsTotal(datasets[|datasets| - 1].data)
  }

  lemma {:induction false} DrawnRow(grid: Grid, samples: seq<Sample>, group: string, data: seq<Option<real>>, n: nat)
    requires grid.Valid() && n <= |data|
    requires forall b :: 0 <= b < n ==> data[b] == Drawn(CellOf(grid, samples, group, b), true)
    ensures CellsTotal(data[..n]) == RowTotal(grid, samples, group, n).sum
  {
    if n > 0 {
      DrawnRow(grid, samples, group, data, n - 1);
      assert data[..n][..n - 1] == data[..n - 1];
    }
  }

  lemma {:induction false} DrawnTable(grid: Grid, samples: seq<Sample>, datasets: seq<Dataset>)
    requires grid.Valid()
    requires forall i :: 0 <= i < |datasets| ==> |datasets[i].data| == grid.buckets
    requires forall i, b :: 0 <= i < |datasets| && 0 <= b < grid.buckets ==>
               datasets[i].data[b] == Drawn(CellOf(grid, samples, datasets[i].name, b), true)
    ensures DrawnTotal(datasets) == TableTotal(grid, samples, Names(datasets)).sum
  {
    if datasets != [] {
      var init, last := datasets[..|datasets| - 1], datasets[|datasets| - 1];
      DrawnTable(grid, samples, init);
      DrawnRow(grid, samples, last.name, last.data, grid.buckets);
      assert last.data[..grid.buckets] == last.data;
      assert Names(datasets)[..|datasets| - 1] == Names(init);
    }
  }

  /** A chart accounts for every accepted sample once; the cells of a summed one add up to their values. */
  lemma {:induction false} ChartConserves(grid: Grid, samples: seq<Sample>, summed: bool, datasets: seq<Dataset>)
    requires grid.Valid() && Charted(grid, samples, summed, datasets)
    ensures TableTotal(grid, samples, Names(datasets)) == AcceptedTotal(grid, samples)
    ensures summed ==> DrawnTotal(datasets) == AcceptedTotal(grid, samples).sum
  {
    SortedDistinct(Names(datasets));
    TotalsConserved(grid, samples, Names(datasets));
    if summed {
      DrawnTable(grid, samples, datasets);
    }
  }

  // ----- the visual order of two known series -----

  /** The last series of a name, as a map filled in order keeps it. */
  function ByName(datasets: seq<Dataset>, name: string): Option<Dataset> {
    if datasets == [] then None
    else if datasets[|datasets| - 1].name == name then Some(datasets[|datasets| - 1])
    else ByName(datasets[..|datasets| - 1], name)
  }

  /** The preferred series that exist, in the preferred order. */
  function Preferred(datasets: seq<Dataset>, preferred: seq<string>): seq<Dataset> {
    if preferred == [] then []
    else
      Preferred(datasets, preferred[..|preferred| - 1])
      + match ByName(datasets, preferred[|preferred| - 1]) case None => [] case Some(d) => [d]
  }

  function Others(datasets: seq<Dataset>, preferred: seq<string>): seq<Dataset> {
    Filter(datasets, (d: Dataset) => d.name !in preferred)
  }

  lemma {:induction false} ByNameMeans(datasets: seq<Dataset>, name: string)
    ensures ByName(datasets, name).None? <==> forall d :: d in datasets ==> d.name != name
    ensures ByName(datasets, name).Some? ==> ByName(datasets, name).value in datasets && ByName(datasets, name).value.name == name
  {
    if datasets != [] {
      var init, last := datasets[..|datasets| - 1], datasets[|datasets| - 1];
      ByNameMeans(init, name);
      assert forall d :: d in datasets <==> d in init || d == last by {
        assert datasets == init + [last];
      }
    }
  }

  lemma {:induction false} ByNameMore(datasets: seq<Dataset>, i: nat, name: string)
    requires i < |datasets|
    ensures ByName(datasets[..i + 1], name)
            == if datasets[i].name == name then Some(datasets[i]) else ByName(datasets[..i], name)
  {
    assert datasets[..i + 1][..i] == datasets[..i];
  }

  lemma {:induction false} PreferredMore(datasets: seq<Dataset>, preferred: seq<string>, i: nat)
    requires i < |preferred|
    ensures Preferred(datasets, preferred[..i + 1])
            == Preferred(datasets, preferred[..i])
               + match ByName(datasets, preferred[i]) case None => [] case Some(d) => [d]
    ensures preferred[..i + 1] == preferred[..i] + [preferred[i]]
  {
    assert preferred[..i + 1][..i] == preferred[..i];
  }

  lemma {:induction false} OthersMore(datasets: seq<Dataset>, preferred: seq<string>, i: nat)
    requires i < |datasets|
    ensures Others(datasets[..i + 1], preferred)
            == Others(datasets[..i], preferred) + (if datasets[i].name !in preferred then [datasets[i]] else [])
  {
    assert datasets[..i + 1][..i] == datasets[..i];
  }

  /** The series is in the list, and no later one has its name. */
  ghost predicate IsLastNamed(datasets: seq<Dataset>, d: Dataset) {
    exists i :: 0 <= i < |datasets| && datasets[i] == d && forall j :: i < j < |datasets| ==> datasets[j].name != d.name
  }

  lemma {:induction false} ByNameIsLast(datasets: seq<Dataset>, name: string)
    ensures ByName(datasets, name).Some? <==> name in Names(datasets)
    ensures ByName(datasets, name).Some? ==>
              ByName(datasets, name).value.name == name && IsLastNamed(datasets, ByName(datasets, name).value)
  {
    if datasets != [] {
      var init, last := datasets[..|datasets| - 1], datasets[|datasets| - 1];
      ByNameIsLast(init, name);
      assert Names(datasets) == Names(init) + [last.name];
      if last.name == name {
        assert datasets[|init|] == last;
      } else if ByName(init, name).Some? {
        StillLast(datasets, ByName(init, name).value);
      }
    }
  }

  lemma {:induction false} StillLast(datasets: seq<Dataset>, d: Dataset)
    requires datasets != [] && IsLastNamed(datasets[..|datasets| - 1], d) && datasets[|datasets| - 1].name != d.name
    ensures IsLastNamed(datasets, d)
  {
    var init := datasets[..|datasets| - 1];
    var i :| 0 <= i < |init| && init[i] == d && forall j :: i < j < |init| ==> init[j].name != d.name;
    assert datasets[i] == d;
    forall j | i < j < |datasets| ensures datasets[j].name != d.name {
      assert j < |init| ==> datasets[j] == init[j];
    }
  }

  lemma {:induction false} PreferredMeans(datasets: seq<Dataset>, preferred: seq<string>)
    ensures Names(Preferred(datasets, preferred)) == Filter(preferred, name => name in Names(datasets))
    ensures forall i :: 0 <= i < |Preferred(datasets, preferred)| ==> IsLastNamed(datasets, Preferred(datasets, preferred)[i])
  {
    if preferred != [] {
      PreferredMeans(datasets, preferred[..|preferred| - 1]);
      ByNameIsLast(datasets, preferred[|preferred| - 1]);
    }
  }

  /** orderChartDatasets */
  method OrderChartDatasets(datasets: seq<Dataset>, preferred: seq<string>) returns (ordered: seq<Dataset>)
    ensures ordered == Preferred(datasets, preferred) + Others(datasets, preferred)
    ensures var k := |Filter(preferred, name => name in Names(datasets))|;
            && k <= |ordered|
            && Names(ordered[..k]) == Filter(preferred, name => name in Names(datasets))
            && (forall i :: 0 <= i < k ==> IsLastNamed(datasets, ordered[i]))
            && ordered[k..] == Filter(datasets, (d: Dataset) => d.name !in preferred)
  {
    PreferredMeans(datasets, preferred);
    ordered := [];
    var used: set<string> := {};
    var byName: map<string, Dataset> := map[];
    for i := 0 to |datasets|
      invariant forall name :: Get(byName, name) == ByName(datasets[..i], name)
    {
      ghost var before, upTo := byName, datasets[..i + 1];
      byName := byName[datasets[i].name := datasets[i]];
      forall name ensures Get(byName, name) == ByName(upTo, name) {
        assert Get(before, name) == ByName(datasets[..i], name);
        ByNameMore(datasets, i, name);
      }
    }
    assert datasets[..|datasets|] == datasets;
    for i := 0 to |preferred|
      invariant ordered == Preferred(datasets, preferred[..i])
      invariant forall d :: d in datasets ==> (d.name in used <==> d.name in preferred[..i])
    {
      var name := preferred[i];
      PreferredMore(datasets, preferred, i);
      assert Get(byName, name) == ByName(datasets, name);
      ByNameMeans(datasets, name);
      if name in byName {
        ordered := ordered + [byName[name]];
        used := used + {name};
      }
    }
    assert preferred[..|preferred|] == preferred;
    for i := 0 to |datasets|
      invariant ordered == Preferred(datasets, preferred) + Others(datasets[..i], preferred)
    {
      OthersMore(datasets, preferred, i);
      assert datasets[i] in datasets;
      if datasets[i].name !in used {
        ordered := ordered + [datasets[i]];
      }
    }
  }

  /** How often each series is drawn among the preferred ones. */
  lemma {:induction false} PreferredCount(datasets: seq<Dataset>, preferred: seq<string>, d: Dataset)
    requires Distinct(Names(datasets))
    ensures multiset(Preferred(datasets, preferred))[d] == if d in datasets then multiset(preferred)[d.name] else 0
  {
    if preferred != [] {
      var init, last := preferred[..|preferred| - 1], preferred[|preferred| - 1];
      assert preferred == init + [last];
      PreferredCount(datasets, init, d);
      ByNameMeans(datasets, last);
      if d in datasets && d.name == last {
        ByNameFinds(datasets, d);
      }
    }
  }

  lemma {:induction false} ByNameFinds(datasets: seq<Dataset>, d: Dataset)
    requires Distinct(Names(datasets)) && d in datasets
    ensures ByName(datasets, d.name) == Some(d)
  {
    ByNameMeans(datasets, d.name);
    var e := ByName(datasets, d.name).value;
    var i :| 0 <= i < |datasets| && datasets[i] == d;
    var j :| 0 <= j < |datasets| && datasets[j] == e;
    assert Names(datasets)[i] == Names(datasets)[j];
  }

  lemma {:induction false} OrderedCount(datasets: seq<Dataset>, preferred: seq<string>, d: Dataset)
    requires Distinct(Names(datasets))
    ensures multiset(Preferred(datasets, preferred) + Others(datasets, preferred))[d]
            == if d !in datasets then 0 else if d.name in preferred then multiset(preferred)[d.name] else 1
  {
    PreferredCount(datasets, preferred, d);
    OthersCount(datasets, preferred, d);
    assert d.name in preferred <==> multiset(preferred)[d.name] > 0;
  }

  /** Reordering neither loses nor repeats a series exactly when no existing one is preferred twice. */
  lemma {:induction false} OrderKeepsSeriesIff(datasets: seq<Dataset>, preferred: seq<string>)
    requires Distinct(Names(datasets))
    ensures multiset(Preferred(datasets, preferred) + Others(datasets, preferred)) == multiset(datasets)
            <==> forall d :: d in datasets ==> multiset(preferred)[d.name] <= 1
  {
    var ordered := multiset(Preferred(datasets, preferred) + Others(datasets, preferred));
    forall d ensures ordered[d] == multiset(datasets)[d] <==> d !in datasets || multiset(preferred)[d.name] <= 1 {
      OrderedCount(datasets, preferred, d);
      OnceEach(datasets, d);
      assert d.name in preferred <==> multiset(preferred)[d.name] > 0;
    }
  }

  lemma {:induction false} OnceEach(datasets: seq<Dataset>, d: Dataset)
    requires Distinct(Names(datasets))
    ensures multiset(datasets)[d] == if d in datasets then 1 else 0
  {
    if datasets != [] {
      var init, last := datasets[..|datasets| - 1], datasets[|datasets| - 1];
      assert datasets == init + [last];
      assert Names(init) == Names(datasets)[..|init|];
      OnceEach(init, d);
      forall i | 0 <= i < |init| ensures init[i] != last {
        assert Names(datasets)[i] != Names(datasets)[|init|];
      }
    }
  }

  lemma {:induction false} OthersCount(datasets: seq<Dataset>, preferred: seq<string>, d: Dataset)
    requires Distinct(Names(datasets))
    ensures multiset(Others(datasets, preferred))[d] == if d in datasets && d.name !in preferred then 1 else 0
  {
    if datasets != [] {
      var init, last := datasets[..|datasets| - 1], datasets[|datasets| - 1];
      assert datasets == init + [last];
      assert Names(init) == Names(datasets)[..|init|];
      OthersCount(init, preferred, d);
      OnceEach(datasets, d);
    }
  }
}
