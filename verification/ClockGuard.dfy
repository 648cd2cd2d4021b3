/** The clock guard: a latch that compares wall-clock movement with uptime.

    Wall-clock instants are microseconds; uptime is whole milliseconds, which is
    how it is persisted.
 */
module ClockGuard {
  import opened Wrappers

  datatype Sample = Sample(wall: int, bootId: string, uptime: int)

  datatype Violation = BackwardAcrossReboot(seconds: int) | UptimeBackward | Drift(seconds: int)

  datatype Detail = NoDetail | DetectedPreviously | Matches | Found(violation: Violation)

  /** The five service-state keys; a missing or unreadable one is None. */
  datatype Store = Store(status: Option<string>, detail: Detail, wall: Option<int>, bootId: Option<string>,
        uptime: Option<int>)

  const OK := "ok"
  const TAMPERED := "tampered"

  /** `num_seconds`: whole seconds, rounded toward zero. */
  function NumSeconds(d: int): (s: int)
    ensures -1_000_000 < d - s * 1_000_000 < 1_000_000
    ensures d >= 0 ==> 0 <= s * 1_000_000 <= d
    ensures d <= 0 ==> d <= s * 1_000_000 <= 0
  {
    if d >= 0 then d / 1_000_000 else -((-d) / 1_000_000)
  }

  function ClockViolation(sample: Sample, wall: Option<int>, bootId: Option<string>, uptime: Option<int>)
    : Option<Violation>
  {
    if wall.None? || bootId.None? || uptime.None? then None
    else if bootId.value != sample.bootId then
      var backward := NumSeconds(wall.value - sample.wall);
      if backward > 300 then Some(BackwardAcrossReboot(backward)) else None
    else
      var elapsed := sample.uptime - uptime.value;
      if elapsed < -1000 then Some(UptimeBackward)
      else
        var drift := NumSeconds(sample.wall - (wall.value + elapsed * 1000));
        if drift > 300 || drift < -300 then Some(Drift(drift)) else None
  }

  function Persist(sample: Sample, status: string, detail: Detail): Store {
    Store(Some(status), detail, Some(sample.wall), Some(sample.bootId), Some(sample.uptime))
  }

  function Update(s: Store, sample: Sample): Store {
    var violation := ClockViolation(sample, s.wall, s.bootId, s.uptime);
    if s.status == Some(TAMPERED) then
      Persist(sample, TAMPERED,
              if violation.Some? then Found(violation.value)
              else if s.detail == NoDetail then DetectedPreviously else s.detail)
    else if violation.Some? then Persist(sample, TAMPERED, Found(violation.value))
    else Persist(sample, OK, Matches)
  }

  class Guard {
    var status: Option<string>
    var detail: Detail
    var wall: Option<int>
    var bootId: Option<string>
    var uptime: Option<int>

    function Now(): Store
      reads this
    {
      Store(status, detail, wall, bootId, uptime)
    }

    constructor ()
      ensures Now() == Store(None, NoDetail, None, None, None)
    {
      status, detail, wall, bootId, uptime := None, NoDetail, None, None, None;
    }

    /** All five keys in one transaction. */
    method PersistSample(sample: Sample, state: string, why: Detail)
      modifies this
      ensures Now() == Persist(sample, state, why)
    {
      status, detail := Some(state), why;
      wall, bootId, uptime := Some(sample.wall), Some(sample.bootId), Some(sample.uptime);
    }

    method UpdateClockIntegrity(sample: Sample) returns (state: string)
      modifies this
      ensures Now() == Update(old(Now()), sample) && status == Some(state)
    {
      var previous := if status.Some? then status.value else OK;
      var violation := ClockViolation(sample, wall, bootId, uptime);
      var why := Matches;
      state := OK;
      if previous == TAMPERED {
        state := TAMPERED;
        why := if violation.Some? then Found(violation.value)
               else if detail == NoDetail then DetectedPreviously else detail;
      } else if violation.Some? {
        state, why := TAMPERED, Found(violation.value);
      }
      PersistSample(sample, state, why);
    }
  }

  // ------------------------------------------------------------------------ runs

  function Run(s: Store, samples: seq<Sample>): Store {
    if samples == [] then s else Update(Run(s, samples[..|samples| - 1]), samples[|samples| - 1])
  }

  predicate Tampered(s: Store) {
    s.status == Some(TAMPERED)
  }

  /** Once tampered, no run of samples returns the guard to ok; and a guard that is
      not tampered after a run never was during it. */
  lemma {:induction false} LatchNeverReleases(s: Store, samples: seq<Sample>, n: nat)
    requires n <= |samples| && Tampered(Run(s, samples[..n]))
    ensures Tampered(Run(s, samples))
    decreases |samples|
  {
    if n < |samples| {
      assert samples[..|samples| - 1][..n] == samples[..n];
      LatchNeverReleases(s, samples[..|samples| - 1], n);
    } else {
      assert samples[..n] == samples;
    }
  }

  /** The sample the store was last given. */
  ghost predicate Holds(s: Store, sample: Sample) {
    s.wall == Some(sample.wall) && s.bootId == Some(sample.bootId) && s.uptime == Some(sample.uptime)
  }


  function Abs(x: int): nat {
    if x >= 0 then x else -x
  }

  /** Wall-clock movement beyond uptime movement, in microseconds. */
  function DriftBetween(a: Sample, b: Sample): int {
    (b.wall - a.wall) - (b.uptime - a.uptime) * 1000
  }

  /** One transition within a boot, uptime not running backwards: the guard trips
      exactly when the clock has drifted by 301 seconds or more. */
  lemma {:induction false} StepTripsAt301Seconds(s: Store, a: Sample, b: Sample)
    requires !Tampered(s) && Holds(s, a) && b.bootId == a.bootId && b.uptime >= a.uptime - 1000
    ensures Tampered(Update(s, b)) <==> Abs(DriftBetween(a, b)) >= 301_000_000
  {
  }

  ghost predicate OneBoot(first: Sample, samples: seq<Sample>) {
    forall k | 0 <= k < |samples| :: samples[k].bootId == first.bootId
  }

  function Last(first: Sample, samples: seq<Sample>): Sample {
    if samples == [] then first else samples[|samples| - 1]
  }

  lemma {:induction false} RunHoldsLast(s: Store, first: Sample, samples: seq<Sample>)
    requires Holds(s, first)
    ensures Holds(Run(s, samples), Last(first, samples))
  {
  }

  /** Over n accepted transitions within one boot the clock drifts from uptime by
      less than 301·n seconds. */
  lemma {:induction false} DriftOverRun(s: Store, first: Sample, samples: seq<Sample>)
    requires Holds(s, first) && OneBoot(first, samples) && samples != []
    requires !Tampered(Run(s, samples))
    ensures Abs(DriftBetween(first, Last(first, samples))) < 301_000_000 * |samples|
  {
    var n := |samples| - 1;
    var before := samples[..n];
    RunHoldsLast(s, first, before);
    var mid := Run(s, before);
    var from, to := Last(first, before), samples[n];
    assert to.bootId == first.bootId && from.bootId == first.bootId;
    assert !Tampered(mid);
    assert to.uptime >= from.uptime - 1000;
    StepTripsAt301Seconds(mid, from, to);
    if before != [] {
      DriftOverRun(s, first, before);
    }
  }

  /** The run in which each sample is `drift` microseconds ahead of uptime, one
      second of uptime apart. */
  function Drifting(first: Sample, drift: int, n: nat): (samples: seq<Sample>)
    ensures |samples| == n
    ensures forall k | 0 <= k < n ::
              samples[k] == Sample(first.wall + (k + 1) * (1_000_000 + drift), first.bootId,
                                   first.uptime + (k + 1) * 1000)
  {
    seq(n, k => Sample(first.wall + (k + 1) * (1_000_000 + drift), first.bootId, first.uptime + (k + 1) * 1000))
  }

  /** The bound cannot be lowered: since each accepted step becomes the new
      baseline, for every n there is an accepted run of n transitions that drifts
      by 301·n seconds less n microseconds. */
  lemma {:induction false} DriftBoundIsTight(s: Store, first: Sample, n: nat)
    requires !Tampered(s) && Holds(s, first)
    ensures var samples := Drifting(first, 300_999_999, n);
            && OneBoot(first, samples)
            && !Tampered(Run(s, samples))
            && DriftBetween(first, Last(first, samples)) == 300_999_999 * n
  {
    if n > 0 {
      var samples := Drifting(first, 300_999_999, n);
      DriftBoundIsTight(s, first, n - 1);
      assert samples[..n - 1] == Drifting(first, 300_999_999, n - 1);
      RunHoldsLast(s, first, samples[..n - 1]);
      StepTripsAt301Seconds(Run(s, samples[..n - 1]), Last(first, samples[..n - 1]), samples[n - 1]);
    }
  }

  /** Reboots included: while the guard stays ok the wall clock never falls back by
      302 seconds or more per transition. */
  lemma {:induction false} WallFallsBackSlowly(s: Store, first: Sample, samples: seq<Sample>)
    requires Holds(s, first) && samples != [] && !Tampered(Run(s, samples))
    ensures first.wall - Last(first, samples).wall < 302_000_000 * |samples|
  {
    var n := |samples| - 1;
    var before := samples[..n];
    RunHoldsLast(s, first, before);
    assert !Tampered(Run(s, before));
    StepBack(Run(s, before), Last(first, before), samples[n]);
    if before != [] {
      WallFallsBackSlowly(s, first, before);
    }
  }

  lemma {:induction false} StepBack(s: Store, a: Sample, b: Sample)
    requires Holds(s, a) && !Tampered(s) && !Tampered(Update(s, b))
    ensures a.wall - b.wall < 302_000_000
  {
  }
}
