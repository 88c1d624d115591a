/** Spacing of scheduled model runs: one row per key, each reservation no earlier than the row allows. */
module Spacing {
  import opened Basics
  import opened Text
  import opened Keys

  /** shared.ModelRunSpacing, in nanoseconds */
  const MODEL_RUN_SPACING: int := 30_000_000_000

  /** One committed transaction on a row: the reserved start, and next_allowed_at afterwards. */
  function Reserved(row: Option<Time>, earliest: Time): Time {
    if row.None? then earliest else Max(earliest, row.value)
  }

  function NextRow(row: Option<Time>, earliest: Time, spacing: int): Option<Time> {
    Some(Reserved(row, earliest) + spacing)
  }

  class SpacingStore {
    var nextAllowedAt: map<string, Time>   // task_spacing_state

    /** Reserves the earliest allowed start for a key, or reports a bad request or a failed database. */
    method ReserveTaskStart(rawKey: string, earliest: Option<Time>, clock: Time, spacing: int, databaseUp: bool)
        returns (r: Result<Time>)
      modifies this
      ensures var key := TrimSpace(rawKey);
              var from := if earliest.Some? then earliest.value else clock;
              && (r.Ok? <==> key != "" && spacing > 0 && databaseUp)
              && (r.Err? ==> nextAllowedAt == old(nextAllowedAt))
              && (r.Ok? ==> r.value == Reserved(Get(old(nextAllowedAt), key), from))
              && (r.Ok? ==> r.value == if key in old(nextAllowedAt) && old(nextAllowedAt)[key] > from
                                       then old(nextAllowedAt)[key] else from)
              && (r.Ok? ==> nextAllowedAt == old(nextAllowedAt)[key := r.value + spacing])
    {
      var key := TrimSpace(rawKey);
      if key == "" {
        return Err("task spacing key is required");
      }
      if spacing <= 0 {
        return Err("task spacing must be greater than 0");
      }
      var from := if earliest.Some? then earliest.value else clock;
      if !databaseUp {
        return Err("database unavailable");
      }
      if key !in nextAllowedAt {
        nextAllowedAt := nextAllowedAt[key := from];
      }
      var nextAllowed := nextAllowedAt[key];
      var reservedAt := from;
      if nextAllowed > reservedAt {
        reservedAt := nextAllowed;
      }
      nextAllowedAt := nextAllowedAt[key := reservedAt + spacing];
      return Ok(reservedAt);
    }

    /**
     * waitForScheduledModelSlot: only scheduled runs reserve; the run may start once the clock has
     * reached the reserved time. Other providers are not held up.
     */
    method WaitForScheduledModelSlot(scheduled: bool, provider: string, clock: Time, databaseUp: bool)
        returns (r: Result<Time>)
      requires Slug(provider)
      modifies this
      ensures r.Ok? <==> !scheduled || databaseUp
      ensures r.Err? || !scheduled ==> nextAllowedAt == old(nextAllowedAt)
      ensures r.Ok? ==> r.value >= clock
      ensures r.Ok? && scheduled ==>
                && r.value == Reserved(Get(old(nextAllowedAt), SpacingKey(provider)), clock)
                && Get(nextAllowedAt, SpacingKey(provider))
                   == NextRow(Get(old(nextAllowedAt), SpacingKey(provider)), clock, MODEL_RUN_SPACING)
      ensures r.Ok? && scheduled ==>
                var key := "monitor.model_run:" + provider;
                && nextAllowedAt == old(nextAllowedAt)[key := r.value + 30_000_000_000]
                && r.value == if key in old(nextAllowedAt) && old(nextAllowedAt)[key] > clock
                              then old(nextAllowedAt)[key] else clock
      ensures forall other :: Slug(other) && other != provider ==>
                Get(nextAllowedAt, SpacingKey(other)) == Get(old(nextAllowedAt), SpacingKey(other))
    {
      if !scheduled {
        return Ok(clock);
      }
      SpacingKeyIsTrimmed(provider);
      assert SpacingKey(provider) == "monitor.model_run:" + provider;
      forall other | Slug(other) && other != provider ensures SpacingKey(other) != SpacingKey(provider) {
        SpacingKeyInjective(other, provider);
      }
      r := ReserveTaskStart(SpacingKey(provider), Some(clock), clock, MODEL_RUN_SPACING, databaseUp);
    }
  }

  const MODEL_RUN_TASK := "monitor.model_run"

  function SpacingKey(provider: string): string {
    MODEL_RUN_TASK + ":" + provider
  }

  lemma {:induction false} SpacingKeyInjective(p: string, q: string)
    requires p != q
    ensures SpacingKey(p) != SpacingKey(q)
  {
    var n := |MODEL_RUN_TASK| + 1;
    assert SpacingKey(p)[n..] == p && SpacingKey(q)[n..] == q;
  }

  lemma {:induction false} SpacingKeyIsTrimmed(provider: string)
    requires Slug(provider)
    ensures TrimSpace(SpacingKey(provider)) == SpacingKey(provider) != ""
  {
    var key := SpacingKey(provider);
    assert key[0] == 'm' && key[|key| - 1] == provider[|provider| - 1];
  }

  // ----- a whole sequence of reservations of one key -----

  /** The row after reserving for each request in order. */
  function RowAfter(row: Option<Time>, requests: seq<Time>, spacing: int): Option<Time> {
    if requests == [] then row
    else NextRow(RowAfter(row, requests[..|requests| - 1], spacing), requests[|requests| - 1], spacing)
  }

  /** The starts handed out for the requests, in order. */
  function Starts(row: Option<Time>, requests: seq<Time>, spacing: int): (starts: seq<Time>)
    ensures |starts| == |requests|
  {
    if requests == [] then []
    else
      var before := requests[..|requests| - 1];
      Starts(row, before, spacing) + [Reserved(RowAfter(row, before, spacing), requests[|requests| - 1])]
  }

  lemma {:induction false} StartsPrefix(row: Option<Time>, requests: seq<Time>, spacing: int, k: nat)
    requires k <= |requests|
    ensures Starts(row, requests[..k], spacing) == Starts(row, requests, spacing)[..k]
  {
    if k < |requests| {
      var before := requests[..|requests| - 1];
      StartsPrefix(row, before, spacing, k);
      assert before[..k] == requests[..k];
    } else {
      assert requests[..k] == requests;
    }
  }

  /** The k-th start is decided by the row left by the first k requests. */
  lemma {:induction false} StartAt(row: Option<Time>, requests: seq<Time>, spacing: int, k: nat)
    requires k < |requests|
    ensures Starts(row, requests, spacing)[k] == Reserved(RowAfter(row, requests[..k], spacing), requests[k])
    ensures RowAfter(row, requests[..k + 1], spacing) == Some(Starts(row, requests, spacing)[k] + spacing)
  {
    StartsPrefix(row, requests, spacing, k + 1);
    assert requests[..k + 1][..k] == requests[..k];
  }

  /** The bound a request j places on a later reservation k. */
  function Pushed(requests: seq<Time>, spacing: int, j: nat, k: nat): Time
    requires j <= k < |requests|
  {
    requests[j] + (k - j) * spacing
  }

  /** Closed form on a fresh row: the k-th start is the maximum of earliest_j + (k - j) * spacing over j <= k. */
  lemma {:induction false} ClosedForm(requests: seq<Time>, spacing: int, k: nat)
    requires k < |requests|
    ensures forall j :: 0 <= j <= k ==> Pushed(requests, spacing, j, k) <= Starts(None, requests, spacing)[k]
    ensures exists j :: 0 <= j <= k && Starts(None, requests, spacing)[k] == Pushed(requests, spacing, j, k)
  {
    StartAt(None, requests, spacing, k);
    var start := Starts(None, requests, spacing)[k];
    if k == 0 {
      assert start == Pushed(requests, spacing, 0, 0);
    } else {
      ClosedForm(requests, spacing, k - 1);
      StartAt(None, requests, spacing, k - 1);
      var before := Starts(None, requests, spacing)[k - 1];
      assert start == Max(requests[k], before + spacing);
      forall j | 0 <= j <= k ensures Pushed(requests, spacing, j, k) <= start {
        if j < k {
          Distribute(k - 1 - j, spacing);
          assert Pushed(requests, spacing, j, k) == Pushed(requests, spacing, j, k - 1) + spacing;
        }
      }
      if start == requests[k] {
        assert start == Pushed(requests, spacing, k, k);
      } else {
        var j :| 0 <= j <= k - 1 && before == Pushed(requests, spacing, j, k - 1);
        Distribute(k - 1 - j, spacing);
        assert start == Pushed(requests, spacing, j, k);
      }
    }
  }

  lemma {:induction false} Distribute(n: int, s: int)
    ensures (n + 1) * s == n * s + s
  {
  }

  /** Whatever the row was: no start precedes its request, and each is the least time that respects all earlier ones. */
  lemma {:induction false} EachStartIsLeast(row: Option<Time>, requests: seq<Time>, spacing: int, k: nat, t: Time)
    requires k < |requests| && spacing > 0
    ensures var starts := Starts(row, requests, spacing);
            starts[k] <= t <==>
            requests[k] <= t && (row.Some? ==> row.value <= t) && forall i :: 0 <= i < k ==> starts[i] + spacing <= t
  {
    var starts := Starts(row, requests, spacing);
    StartAt(row, requests, spacing, k);
    RowIsLastOrFirst(row, requests, spacing, k);
    forall i | 0 <= i < k ensures starts[i] + spacing <= starts[k] {
      PairwiseSpaced(row, requests, spacing, i, k);
    }
  }

  lemma {:induction false} RowIsLastOrFirst(row: Option<Time>, requests: seq<Time>, spacing: int, k: nat)
    requires k < |requests| && spacing > 0
    ensures k == 0 ==> RowAfter(row, requests[..k], spacing) == row
    ensures k > 0 ==> RowAfter(row, requests[..k], spacing) == Some(Starts(row, requests, spacing)[k - 1] + spacing)
    ensures row.Some? ==> row.value <= Starts(row, requests, spacing)[k]
  {
    StartAt(row, requests, spacing, k);
    if k > 0 {
      StartAt(row, requests, spacing, k - 1);
      RowIsLastOrFirst(row, requests, spacing, k - 1);
    }
  }

  /** Any two reservations are at least (their distance) * spacing apart. */
  lemma {:induction false} PairwiseSpaced(row: Option<Time>, requests: seq<Time>, spacing: int, i: nat, k: nat)
    requires i <= k < |requests| && spacing > 0
    ensures Starts(row, requests, spacing)[i] + (k - i) * spacing <= Starts(row, requests, spacing)[k]
    ensures i < k ==> Starts(row, requests, spacing)[i] + spacing <= Starts(row, requests, spacing)[k]
  {
    if i < k {
      PairwiseSpaced(row, requests, spacing, i, k - 1);
      StartAt(row, requests, spacing, k);
      StartAt(row, requests, spacing, k - 1);
      Distribute(k - 1 - i, spacing);
    }
  }

  /** Reservations inside a closed window. */
  function InWindow(starts: seq<Time>, from: Time, width: int): nat {
    if starts == [] then 0
    else InWindow(starts[..|starts| - 1], from, width)
           + (if from <= starts[|starts| - 1] <= from + width then 1 else 0)
  }

  /** A closed window of length w holds at most floor(w / spacing) + 1 reservations. */
  lemma {:induction false} WindowBound(row: Option<Time>, requests: seq<Time>, spacing: int, from: Time, width: int)
    requires spacing > 0 && width >= 0
    ensures InWindow(Starts(row, requests, spacing), from, width) <= width / spacing + 1
  {
    var n, q := InWindow(Starts(row, requests, spacing), from, width), width / spacing;
    if n > 0 {
      var _ := WindowSpan(row, requests, spacing, from, width);
    }
    FloorMeans(width, spacing);
    if n > q + 1 {
      MonotoneProduct(q + 1, n - 1, spacing);
    }
  }

  lemma {:induction false} MonotoneProduct(a: int, b: int, s: int)
    requires a <= b && s > 0
    ensures a * s <= b * s
  {
    assert (b - a) * s >= 0;
    assert b * s == a * s + (b - a) * s;
  }

  /** n reservations in a window span at least (n - 1) * spacing: some reservation k is that far in. */
  lemma {:induction false} WindowSpan(row: Option<Time>, requests: seq<Time>, spacing: int, from: Time, width: int)
      returns (k: nat)
    requires spacing > 0 && width >= 0 && InWindow(Starts(row, requests, spacing), from, width) > 0
    ensures k < |requests|
    ensures Starts(row, requests, spacing)[k] <= from + width
    ensures from + (InWindow(Starts(row, requests, spacing), from, width) - 1) * spacing <= Starts(row, requests, spacing)[k]
  {
    var last, starts := |requests| - 1, Starts(row, requests, spacing);
    StartsPrefix(row, requests, spacing, last);
    var m := InWindow(starts[..last], from, width);
    if m == 0 {
      return last;
    }
    k := WindowSpan(row, requests[..last], spacing, from, width);
    if from <= starts[last] <= from + width {
      PairwiseSpaced(row, requests, spacing, k, last);
      FurtherIn(from, starts[k], starts[last], m, last - k, spacing);
      k := last;
    }
  }

  /** A later start, at least one spacing further in. */
  lemma {:induction false} FurtherIn(from: Time, x: Time, y: Time, m: int, gap: int, spacing: int)
    requires spacing > 0 && gap >= 1 && from + (m - 1) * spacing <= x && x + gap * spacing <= y
    ensures from + m * spacing <= y
  {
    MonotoneProduct(1, gap, spacing);
    Distribute(m - 1, spacing);
  }
}
