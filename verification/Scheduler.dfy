/**
 The maintenance scheduler. Times are microseconds since some midnight; a job
 runs daily at a wall-clock time or every so many hours.
 */
module Scheduler {
  import opened Arithmetic
  import opened Basics

  const MINUTE: int := 60_000_000
  const HOUR: int := 60 * MINUTE
  const DAY: int := 24 * HOUR

  /** The hours of the longest duration there is: 999,999,999 days and 23 hours. */
  const MAX_HOURS: int := 23_999_999_999

  /** The pattern of a daily schedule admits any two digits twice. */
  type TwoDigits = n: int | 0 <= n < 100

  datatype Schedule = Daily(hour: TwoDigits, minute: TwoDigits) | Every(hours: nat)
  {
    /** Whether the wall-clock time or the duration exists; if not, evaluating the schedule faults. */
    predicate Sound() {
      match this
      case Daily(hour, minute) => hour < 24 && minute < 60
      case Every(hours) => hours <= MAX_HOURS
    }

    /** Today's occurrence of a daily schedule, relative to a moment. */
    function SlotOn(now: int): int
      requires Daily?
    {
      now - now % DAY + hour * HOUR + minute * MINUTE
    }

    function NextRun(lastRun: Option<int>, now: int): int {
      match this
      case Daily(_, _) => if SlotOn(now) <= now then SlotOn(now) + DAY else SlotOn(now)
      case Every(hours) => (if lastRun.Some? then lastRun.value else now) + hours * HOUR
    }

    predicate IsDue(lastRun: Option<int>, now: int) {
      match lastRun
      case None => true
      case Some(r) =>
        match this
        case Daily(_, _) => SlotOn(now) <= now && r < SlotOn(now)
        case Every(hours) => now - r >= hours * HOUR
    }

    /** A job that never ran is due before its schedule is even looked at. */
    predicate DueFaults(lastRun: Option<int>) {
      lastRun.Some? && !Sound()
    }
  }

  datatype JobState = JobState(name: string, schedule: Schedule, lastRun: Option<int>)

  datatype JobResult = JobResult(name: string, ok: bool)

  datatype Trigger = Scheduled | Manual

  datatype Published = Published(trigger: Trigger, jobsOk: nat, jobsFailed: nat)

  function CountOk(results: seq<JobResult>, ok: bool): nat {
    if results == [] then 0
    else CountOk(results[..|results| - 1], ok) + if results[|results| - 1].ok == ok then 1 else 0
  }

  /** Evaluating one of the jobs faults, which ends a tick before anything runs. */
  predicate TickFaults(jobs: seq<JobState>) {
    exists i :: 0 <= i < |jobs| && jobs[i].schedule.DueFaults(jobs[i].lastRun)
  }

  function Ticked(jobs: seq<JobState>, now: int): (after: seq<JobState>)
    ensures |after| == |jobs|
    ensures forall i | 0 <= i < |jobs| ::
              after[i] == if jobs[i].schedule.IsDue(jobs[i].lastRun, now)
                          then jobs[i].(lastRun := Some(now)) else jobs[i]
  {
    seq(|jobs|, i requires 0 <= i < |jobs| =>
      if jobs[i].schedule.IsDue(jobs[i].lastRun, now) then jobs[i].(lastRun := Some(now)) else jobs[i])
  }

  lemma TickedUnique(jobs: seq<JobState>, after: seq<JobState>, now: int)
    requires |after| == |jobs|
    requires forall i | 0 <= i < |jobs| ::
               after[i] == if jobs[i].schedule.IsDue(jobs[i].lastRun, now)
                           then jobs[i].(lastRun := Some(now)) else jobs[i]
    ensures after == Ticked(jobs, now)
  {
  }

  function Forced(jobs: seq<JobState>, now: int): (after: seq<JobState>)
    ensures |after| == |jobs|
    ensures forall i | 0 <= i < |jobs| :: after[i] == jobs[i].(lastRun := Some(now))
  {
    seq(|jobs|, i requires 0 <= i < |jobs| => jobs[i].(lastRun := Some(now)))
  }

  /** One heartbeat: a tick, or a forced cycle. */
  datatype Pulse = Pulse(manual: bool, at: int)

  /** What a heartbeat makes of the jobs; a tick that faults changes none of them. */
  function Beat(jobs: seq<JobState>, p: Pulse): (after: seq<JobState>)
    ensures |after| == |jobs|
  {
    if p.manual then Forced(jobs, p.at)
    else if TickFaults(jobs) then jobs
    else Ticked(jobs, p.at)
  }

  /** What the due jobs report, in registration order. */
  function DueResults(jobs: seq<JobState>, now: int, works: string -> bool): seq<JobResult> {
    if jobs == [] then []
    else
      var job := jobs[|jobs| - 1];
      DueResults(jobs[..|jobs| - 1], now, works)
      + if job.schedule.IsDue(job.lastRun, now) then [JobResult(job.name, works(job.name))] else []
  }

  class Job {
    const name: string
    const schedule: Schedule
    var lastRun: Option<int>

    constructor (name: string, schedule: Schedule)
      ensures this.name == name && this.schedule == schedule && lastRun == None
    {
      this.name, this.schedule, lastRun := name, schedule, None;
    }

    function State(): JobState
      reads this
    {
      JobState(name, schedule, lastRun)
    }
  }

  function States(jobs: seq<Job>): (states: seq<JobState>)
    reads jobs
    ensures |states| == |jobs|
    ensures forall i | 0 <= i < |jobs| :: states[i] == jobs[i].State()
  {
    seq(|jobs|, i requires 0 <= i < |jobs| reads jobs => jobs[i].State())
  }

  /** The due jobs, in registration order. */
  function Due(jobs: seq<Job>, now: int): (due: seq<Job>)
    reads jobs
  {
    if jobs == [] then []
    else
      var job := jobs[|jobs| - 1];
      Due(jobs[..|jobs| - 1], now) + if job.schedule.IsDue(job.lastRun, now) then [job] else []
  }

  lemma {:induction false} DueFacts(jobs: seq<Job>, now: int)
    requires forall i, j | 0 <= i < j < |jobs| :: jobs[i].name != jobs[j].name
    ensures Distinct(Due(jobs, now))
    ensures forall job | job in Due(jobs, now) :: job in jobs
    ensures forall i | 0 <= i < |jobs| ::
              jobs[i] in Due(jobs, now) <==> jobs[i].schedule.IsDue(jobs[i].lastRun, now)
  {
    if jobs != [] {
      var n := |jobs| - 1;
      DueFacts(jobs[..n], now);
      assert jobs[n] !in jobs[..n] by {
        assert forall k | 0 <= k < n :: jobs[k].name != jobs[n].name;
      }
    }
  }

  lemma {:induction false} DueReports(jobs: seq<Job>, now: int, works: string -> bool)
    ensures Results(Due(jobs, now), works) == DueResults(States(jobs), now, works)
  {
    if jobs != [] {
      var n := |jobs| - 1;
      DueReports(jobs[..n], now, works);
      assert States(jobs)[..n] == States(jobs[..n]);
      ResultsAppend(Due(jobs[..n], now), jobs[n], works);
    }
  }

  predicate Distinct(jobs: seq<Job>) {
    forall i, j | 0 <= i < j < |jobs| :: jobs[i] != jobs[j]
  }

  class Scheduler {
    var jobs: seq<Job>
    var published: seq<Published>

    ghost predicate Valid()
      reads this
    {
      forall i, j | 0 <= i < j < |jobs| :: jobs[i].name != jobs[j].name
    }

    constructor ()
      ensures Valid() && jobs == [] && published == []
    {
      jobs, published := [], [];
    }

    /** A second job of the same name is refused. */
    method Register(job: Job) returns (ok: bool)
      requires Valid()
      modifies this`jobs
      ensures Valid()
      ensures ok <==> forall i | 0 <= i < |old(jobs)| :: old(jobs)[i].name != job.name
      ensures jobs == if ok then old(jobs) + [job] else old(jobs)
    {
      for i := 0 to |jobs|
        invariant jobs == old(jobs)
        invariant forall j | 0 <= j < i :: jobs[j].name != job.name
      {
        if jobs[i].name == job.name {
          return false;
        }
      }
      jobs := jobs + [job];
      return true;
    }

    /** Run everything due; `works` says which actions return rather than raise. */
    method Tick(now: int, works: string -> bool) returns (results: Result<seq<JobResult>, string>)
      requires Valid()
      modifies this`published, set job | job in jobs
      ensures results.Err? <==> TickFaults(old(States(jobs)))
      ensures States(jobs) == Beat(old(States(jobs)), Pulse(false, now))
      ensures results.Err? ==> published == old(published)
      ensures results.Ok? ==>
                && results.value == DueResults(old(States(jobs)), now, works)
                && published == old(published) + Summary(Scheduled, results.value)
    {
      var sound, due := DueJobs(now);
      if !sound {
        return Err("time must be in range");
      }
      DueFacts(jobs, now);
      DueReports(jobs, now, works);
      assert forall job | job in due :: job in old(jobs);
      var rs := RunJobs(due, Scheduled, now, works);
      TickedUnique(old(States(jobs)), States(jobs), now);
      results := Ok(rs);
    }

    /** The jobs a tick will run; the first schedule that faults ends the search. */
    method DueJobs(now: int) returns (sound: bool, due: seq<Job>)
      requires Valid()
      ensures !sound <==> TickFaults(States(jobs))
      ensures sound ==> due == Due(jobs, now)
    {
      due := [];
      ghost var states := States(jobs);
      for i := 0 to |jobs|
        invariant forall j | 0 <= j < i :: !states[j].schedule.DueFaults(states[j].lastRun)
        invariant due == Due(jobs[..i], now)
      {
        assert jobs[..i + 1][..i] == jobs[..i];
        if jobs[i].schedule.DueFaults(jobs[i].lastRun) {
          assert states[i].schedule.DueFaults(states[i].lastRun);
          return false, due;
        }
        if jobs[i].schedule.IsDue(jobs[i].lastRun, now) {
          due := due + [jobs[i]];
        }
      }
      assert jobs[..|jobs|] == jobs;
      sound := true;
    }

    /** Force every job, due or not. */
    method RunAll(now: int, works: string -> bool) returns (results: seq<JobResult>)
      requires Valid()
      modifies this`published, set job | job in jobs
      ensures States(jobs) == Beat(old(States(jobs)), Pulse(true, now))
      ensures results == Results(jobs, works)
      ensures published == old(published) + Summary(Manual, results)
    {
      results := RunJobs(jobs, Manual, now, works);
    }

    /** A raising action is reported; the cycle goes on and the job counts as run. */
    method RunJobs(selected: seq<Job>, trigger: Trigger, now: int, works: string -> bool)
      returns (results: seq<JobResult>)
      requires Distinct(selected)
      modifies this`published, set job | job in selected
      ensures forall i | 0 <= i < |selected| :: selected[i].lastRun == Some(now)
      ensures results == Results(selected, works)
      ensures published == old(published) + Summary(trigger, results)
    {
      results := [];
      for i := 0 to |selected|
        invariant published == old(published)
        invariant forall j | 0 <= j < i :: selected[j].lastRun == Some(now)
        invariant results == Results(selected[..i], works)
      {
        assert selected[..i + 1] == selected[..i] + [selected[i]];
        ResultsAppend(selected[..i], selected[i], works);
        selected[i].lastRun := Some(now);
        results := results + [JobResult(selected[i].name, works(selected[i].name))];
      }
      assert selected[..|selected|] == selected;
      if results != [] {
        published := published + [Published(trigger, CountOk(results, true), CountOk(results, false))];
      }
    }
  }

  function Summary(trigger: Trigger, results: seq<JobResult>): seq<Published> {
    if results == [] then [] else [Published(trigger, CountOk(results, true), CountOk(results, false))]
  }

  function Results(jobs: seq<Job>, works: string -> bool): (rs: seq<JobResult>)
    ensures |rs| == |jobs|
  {
    seq(|jobs|, i requires 0 <= i < |jobs| => JobResult(jobs[i].name, works(jobs[i].name)))
  }

  lemma ResultsAppend(jobs: seq<Job>, job: Job, works: string -> bool)
    ensures Results(jobs + [job], works) == Results(jobs, works) + [JobResult(job.name, works(job.name))]
  {
  }

  // ------------------------------------------- due-ness agrees with next run

  /** A day is 24 hours of 60 minutes of 60 million microseconds. */
  lemma UnitsOfTime()
    ensures MINUTE == 60 * 1_000_000 && HOUR == 3600 * 1_000_000 && DAY == 86400 * 1_000_000
  {
  }

  /** The clock reads this hour and this minute, and no time has passed since. */
  predicate Reads(t: int, hour: int, minute: int) {
    t % DAY / HOUR == hour && t % HOUR / MINUTE == minute && t % MINUTE == 0
  }

  /** The moments at which a daily schedule comes round: the clock reads its time. */
  predicate IsSlot(s: Schedule, t: int)
    requires s.Daily?
  {
    Reads(t, s.hour, s.minute)
  }

  lemma QuotientUnique(p: int, q: int, a: int, b: int, m: int)
    requires p * m + a == q * m + b && 0 <= a < m && 0 <= b < m
    ensures p == q
  {
    MulDistributes(p, q - p, m);
    MulDistributes(q - p, p - q, m);
    if q > p {
      MulMonotone(1, q - p, m);
    } else if q < p {
      MulMonotone(1, p - q, m);
    }
  }

  lemma RemainderIs(x: int, m: int, q: int, r: int)
    requires x == q * m + r && 0 <= r < m
    ensures x / m == q && x % m == r
  {
    assert x == x / m * m + x % m;
    QuotientUnique(x / m, q, x % m, r, m);
  }

  lemma RemainderOf(q: int, d: int, m: int)
    requires m > 0
    ensures (q * m + d) % m == d % m
  {
    assert q * m + d == (q + d / m) * m + d % m;
    RemainderIs(q * m + d, m, q + d / m, d % m);
  }

  lemma ReadingOf(t: int, hour: int, minute: int)
    requires 0 <= hour < 24 && 0 <= minute < 60
    ensures Reads(t, hour, minute) <==> t % DAY == hour * HOUR + minute * MINUTE
  {
    var d := t % DAY;
    RemainderOf(24 * (t / DAY), d, HOUR);
    RemainderOf(24 * 60 * (t / DAY), d, MINUTE);
    RemainderOf(60 * (d / HOUR), d % HOUR, MINUTE);
    if d == hour * HOUR + minute * MINUTE {
      RemainderIs(d, HOUR, hour, minute * MINUTE);
      RemainderIs(d % HOUR, MINUTE, minute, 0);
    }
  }

  /** A daily schedule's occurrence of a day is the moment of that day at which the clock reads its time. */
  /** A schedule exists exactly if some moment has its reading, or its hours are less than a billion days. */
  lemma SoundIff(s: Schedule)
    ensures s.Sound()
            <==> match s
                 case Daily(hour, minute) => exists t :: Reads(t, hour, minute)
                 case Every(hours) => hours * HOUR < 1_000_000_000 * DAY
  {
    match s
    case Daily(hour, minute) =>
      if s.Sound() {
        var t := hour * HOUR + minute * MINUTE;
        ReadingOf(t, hour, minute);
        assert Reads(t, hour, minute);
      }
    case Every(_) =>
  }

  lemma SlotReads(s: Schedule, t: int)
    requires s.Daily? && s.Sound()
    ensures IsSlot(s, t) <==> s.SlotOn(t) == t
  {
    ReadingOf(t, s.hour, s.minute);
  }

  function DayEnd(t: int): int {
    t - t % DAY + DAY
  }

  lemma DayOf(t: int, u: int)
    requires t - t % DAY <= u < DayEnd(t)
    ensures u - u % DAY == t - t % DAY
  {
    var d := t / DAY;
    assert t - t % DAY == d * DAY;
    assert u / DAY == d;
  }

  lemma SlotInDay(s: Schedule, t: int)
    requires s.Daily? && s.Sound()
    ensures t - t % DAY <= s.SlotOn(t) < DayEnd(t)
    ensures IsSlot(s, s.SlotOn(t))
  {
    assert 0 <= s.hour * HOUR + s.minute * MINUTE < DAY;
    DayOf(t, s.SlotOn(t));
    SlotReads(s, s.SlotOn(t));
  }

  lemma NextDay(s: Schedule, t: int)
    requires s.Daily?
    ensures s.SlotOn(t + DAY) == s.SlotOn(t) + DAY && DayEnd(t + DAY) == DayEnd(t) + DAY
  {
    assert (t + DAY) % DAY == t % DAY;
  }

  lemma NextSlot(s: Schedule, lastRun: Option<int>, now: int, t: int)
    requires s.Daily? && s.Sound()
    ensures var next := s.NextRun(lastRun, now);
            now < next && s.SlotOn(next) == next && (s.SlotOn(t) == t && now < t ==> next <= t)
  {
    hide IsSlot;
    SlotInDay(s, now);
    SlotReads(s, s.SlotOn(now));
    NextDay(s, s.SlotOn(now));
    if s.SlotOn(t) == t && now < t < s.NextRun(lastRun, now) {
      if t < DayEnd(now) {
        DayOf(now, t);
      } else {
        NextDay(s, now);
        DayOf(now + DAY, t);
      }
    }
  }

  /** The next run is the first moment after now at which the clock reads the schedule's time. */
  lemma NextRunIsFirstSlotAfter(s: Schedule, lastRun: Option<int>, now: int, t: int)
    requires s.Daily? && s.Sound()
    ensures var next := s.NextRun(lastRun, now);
            && now < next && IsSlot(s, next)
            && (IsSlot(s, t) && now < t ==> next <= t)
  {
    NextSlot(s, lastRun, now, t);
    hide *;
    SlotReads(s, t);
    SlotReads(s, s.NextRun(lastRun, now));
  }

  /**
   After a run at r, a daily job is due exactly between a slot later than r and
   the midnight that follows it; a slot nobody ticks before midnight is lost.
   */
  lemma DailyDueIff(s: Schedule, r: int, now: int)
    requires s.Daily? && s.Sound() && r <= now
    ensures s.IsDue(Some(r), now) <==> exists u :: IsSlot(s, u) && r < u <= now < DayEnd(u)
  {
    hide IsSlot;
    SlotInDay(s, now);
    if s.IsDue(Some(r), now) {
      DayOf(now, s.SlotOn(now));
      assert IsSlot(s, s.SlotOn(now));
    }
    forall u | IsSlot(s, u) && r < u <= now < DayEnd(u) ensures s.IsDue(Some(r), now) {
      SlotReads(s, u);
      DayOf(u, now);
    }
  }

  /** The two formulas agree: not due before the next run, due from it to midnight. */
  lemma DailyAgreement(s: Schedule, r: int, now: int)
    requires s.Daily? && s.Sound() && r <= now
    ensures var next := s.NextRun(Some(r), r);
            && (now < next ==> !s.IsDue(Some(r), now))
            && (next <= now < DayEnd(next) ==> s.IsDue(Some(r), now))
  {
    var next := s.NextRun(Some(r), r);
    NextRunIsFirstSlotAfter(s, Some(r), r, s.SlotOn(now));
    SlotInDay(s, now);
    if next <= now < DayEnd(next) {
      DailyDueIff(s, r, now);
    }
  }

  lemma IntervalAgreement(s: Schedule, r: int, now: int)
    requires s.Every?
    ensures s.IsDue(Some(r), now) <==> s.NextRun(Some(r), now) <= now
  {
  }

  // ------------------------------------------------------------- histories

  /** Whether pulse i makes a job of this schedule run, if there is no other job. */
  predicate Runs(s: Schedule, ps: seq<Pulse>, i: nat)
    requires i < |ps|
    decreases i, 1
  {
    var last := LastRunBefore(s, ps, i);
    ps[i].manual || (!s.DueFaults(last) && s.IsDue(last, ps[i].at))
  }

  /** The job's last run before pulse i. */
  function LastRunBefore(s: Schedule, ps: seq<Pulse>, i: nat): Option<int>
    requires i <= |ps|
    decreases i, 0
  {
    if i == 0 then None
    else if Runs(s, ps, i - 1) then Some(ps[i - 1].at)
    else LastRunBefore(s, ps, i - 1)
  }

  ghost predicate Chronological(ps: seq<Pulse>) {
    forall i, j | 0 <= i <= j < |ps| :: ps[i].at <= ps[j].at
  }

  /** The scheduler's jobs after the first n pulses. */
  function Beaten(jobs: seq<JobState>, ps: seq<Pulse>, n: nat): (after: seq<JobState>)
    requires n <= |ps|
    ensures |after| == |jobs|
  {
    if n == 0 then jobs else Beat(Beaten(jobs, ps, n - 1), ps[n - 1])
  }

  ghost predicate AllFresh(jobs: seq<JobState>) {
    forall i | 0 <= i < |jobs| :: jobs[i].lastRun == None
  }

  ghost predicate AllSound(jobs: seq<JobState>) {
    forall i | 0 <= i < |jobs| :: jobs[i].schedule.Sound()
  }

  ghost predicate NoneSound(jobs: seq<JobState>) {
    forall i | 0 <= i < |jobs| :: !jobs[i].schedule.Sound()
  }

  /** After n pulses, job i is where it would be if there were no other job. */
  ghost predicate Alone(jobs: seq<JobState>, ps: seq<Pulse>, n: nat, i: nat)
    requires n <= |ps| && i < |jobs|
  {
    Beaten(jobs, ps, n)[i] == jobs[i].(lastRun := LastRunBefore(jobs[i].schedule, ps, n))
  }

  /** No job ever notices the others, whatever the ticks and forced cycles. */
  ghost predicate Independent(jobs: seq<JobState>) {
    forall ps: seq<Pulse>, n: nat, i: nat | n <= |ps| && i < |jobs| :: Alone(jobs, ps, n, i)
  }

  lemma BeatOfSound(jobs: seq<JobState>, p: Pulse, i: nat)
    requires AllSound(jobs) && i < |jobs|
    ensures Beat(jobs, p)[i] ==
              if p.manual || jobs[i].schedule.IsDue(jobs[i].lastRun, p.at)
              then jobs[i].(lastRun := Some(p.at)) else jobs[i]
  {
    assert !TickFaults(jobs);
  }

  lemma {:induction false} SchedulesAreKept(jobs: seq<JobState>, ps: seq<Pulse>, n: nat)
    requires n <= |ps|
    ensures forall i | 0 <= i < |jobs| :: Beaten(jobs, ps, n)[i].schedule == jobs[i].schedule
  {
    if n > 0 {
      SchedulesAreKept(jobs, ps, n - 1);
    }
  }

  /**
   Freshly registered jobs whose schedules all exist live through ticks and forced
   cycles independently; so what a single schedule is proved to do, every job does.
   */
  lemma {:induction false} JobsAreIndependent(jobs: seq<JobState>, ps: seq<Pulse>, n: nat, i: nat)
    requires AllSound(jobs) && n <= |ps| && i < |jobs| && jobs[i].lastRun == None
    ensures Alone(jobs, ps, n, i)
    ensures n < |ps| ==>
              var job := Beaten(jobs, ps, n)[i];
              Runs(jobs[i].schedule, ps, n) <==> ps[n].manual || job.schedule.IsDue(job.lastRun, ps[n].at)
  {
    if n > 0 {
      JobsAreIndependent(jobs, ps, n - 1, i);
      SchedulesAreKept(jobs, ps, n - 1);
      BeatOfSound(Beaten(jobs, ps, n - 1), ps[n - 1], i);
    }
  }

  /** Once a job of an impossible schedule ran, ticks change nothing; forced cycles run all. */
  lemma {:induction false} FaultsAreForGood(jobs: seq<JobState>, ps: seq<Pulse>, n: nat, m: nat, i: nat)
    requires n <= m < |ps| && i < |jobs| && !jobs[i].schedule.Sound()
    requires Beaten(jobs, ps, n)[i].lastRun.Some?
    ensures TickFaults(Beaten(jobs, ps, m))
    ensures Beaten(jobs, ps, m + 1) ==
              if ps[m].manual then Forced(Beaten(jobs, ps, m), ps[m].at) else Beaten(jobs, ps, m)
  {
    HasRunForGood(jobs, ps, n, m, i);
    SchedulesAreKept(jobs, ps, m);
    assert Beaten(jobs, ps, m)[i].schedule.DueFaults(Beaten(jobs, ps, m)[i].lastRun);
  }

  lemma {:induction false} HasRunForGood(jobs: seq<JobState>, ps: seq<Pulse>, n: nat, m: nat, i: nat)
    requires n <= m <= |ps| && i < |jobs| && Beaten(jobs, ps, n)[i].lastRun.Some?
    ensures Beaten(jobs, ps, m)[i].lastRun.Some?
  {
    if n < m {
      HasRunForGood(jobs, ps, n, m - 1, i);
    }
  }

  /** If no schedule exists, all jobs stop ticking together, at the first pulse. */
  lemma {:induction false} UnsoundJobsAreAlone(jobs: seq<JobState>, ps: seq<Pulse>, n: nat, i: nat)
    requires AllFresh(jobs) && NoneSound(jobs) && n <= |ps| && i < |jobs|
    ensures Alone(jobs, ps, n, i)
    ensures n > 0 ==> Beaten(jobs, ps, n)[i].lastRun.Some?
  {
    if n == 1 {
      assert !TickFaults(Beaten(jobs, ps, 0));
    } else if n > 1 {
      UnsoundJobsAreAlone(jobs, ps, n - 1, i);
      FaultsAreForGood(jobs, ps, n - 1, n - 1, i);
    }
  }

  /** Some later moment at which a job that ran at 0 is due. */
  function DueAgain(s: Schedule): (t: int)
    requires s.Sound()
    ensures s.IsDue(Some(0), t) && t > 0
  {
    match s
    case Every(hours) => hours * HOUR + 1
    case Daily(hour, minute) => DAY + hour * HOUR + minute * MINUTE
  }

  /** One job of an impossible schedule keeps every sound one from its second tick. */
  lemma SoundJobStarves(jobs: seq<JobState>, i: nat, j: nat)
    requires AllFresh(jobs) && i < |jobs| && j < |jobs|
    requires jobs[i].schedule.Sound() && !jobs[j].schedule.Sound()
    ensures var ps := [Pulse(false, 0), Pulse(false, DueAgain(jobs[i].schedule))];
            Chronological(ps) && !Alone(jobs, ps, 2, i)
  {
    var ps := [Pulse(false, 0), Pulse(false, DueAgain(jobs[i].schedule))];
    var s := jobs[i].schedule;
    assert !TickFaults(Beaten(jobs, ps, 0));
    assert Beaten(jobs, ps, 1)[i].lastRun == Some(0);
    FaultsAreForGood(jobs, ps, 1, 1, j);
    assert LastRunBefore(s, ps, 1) == Some(0);
    assert LastRunBefore(s, ps, 2) == Some(DueAgain(s));
  }

  /** Fresh jobs are independent exactly if all their schedules exist, or none does. */
  lemma IndependentIff(jobs: seq<JobState>)
    requires AllFresh(jobs)
    ensures Independent(jobs) <==> AllSound(jobs) || NoneSound(jobs)
  {
    if AllSound(jobs) || NoneSound(jobs) {
      forall ps: seq<Pulse>, n: nat, i: nat | n <= |ps| && i < |jobs| ensures Alone(jobs, ps, n, i) {
        if AllSound(jobs) {
          JobsAreIndependent(jobs, ps, n, i);
        } else {
          UnsoundJobsAreAlone(jobs, ps, n, i);
        }
      }
    } else {
      var i: nat :| i < |jobs| && jobs[i].schedule.Sound();
      var j: nat :| j < |jobs| && !jobs[j].schedule.Sound();
      SoundJobStarves(jobs, i, j);
      assert !Alone(jobs, [Pulse(false, 0), Pulse(false, DueAgain(jobs[i].schedule))], 2, i);
    }
  }

  /** The last run is the latest earlier pulse that ran. */
  lemma {:induction false} LastRunIsLatest(s: Schedule, ps: seq<Pulse>, i: nat, j: nat)
    requires Chronological(ps) && j < i <= |ps| && Runs(s, ps, j)
    ensures LastRunBefore(s, ps, i).Some? && ps[j].at <= LastRunBefore(s, ps, i).value
  {
    if j < i - 1 {
      LastRunIsLatest(s, ps, i - 1, j);
    }
  }

  lemma {:induction false} LastRunWasAPulse(s: Schedule, ps: seq<Pulse>, i: nat) returns (j: nat)
    requires i <= |ps| && LastRunBefore(s, ps, i).Some?
    ensures j < i && Runs(s, ps, j) && LastRunBefore(s, ps, i) == Some(ps[j].at)
  {
    if Runs(s, ps, i - 1) {
      j := i - 1;
    } else {
      j := LastRunWasAPulse(s, ps, i - 1);
    }
  }

  lemma FirstPulseRuns(s: Schedule, ps: seq<Pulse>)
    requires ps != []
    ensures Runs(s, ps, 0)
  {
  }

  /**
   The whole history of a daily job without recursion: after the first pulse, a
   tick runs the job exactly when it is the first pulse, of either kind, at or
   after the slot of its day.
   */
  lemma {:induction false} DailyRunsIff(s: Schedule, ps: seq<Pulse>, i: nat)
    requires s.Daily? && s.Sound() && Chronological(ps) && 0 < i < |ps| && !ps[i].manual
    ensures Runs(s, ps, i) <==>
              s.SlotOn(ps[i].at) <= ps[i].at && forall j | 0 <= j < i :: ps[j].at < s.SlotOn(ps[i].at)
    decreases i
  {
    var slot := s.SlotOn(ps[i].at);
    FirstPulseRuns(s, ps);
    LastRunIsLatest(s, ps, i, 0);
    var last := LastRunWasAPulse(s, ps, i);
    SlotInDay(s, ps[i].at);
    if slot <= ps[i].at && exists j :: 0 <= j < i && ps[j].at >= slot {
      var j := FirstFrom(ps, i, slot);
      DayOf(ps[i].at, ps[j].at);
      assert Runs(s, ps, j) by {
        if j > 0 && !ps[j].manual {
          DailyRunsIff(s, ps, j);
        }
      }
      LastRunIsLatest(s, ps, i, j);
    }
  }

  /** The first of the pulses before n that is not earlier than a moment. */
  lemma {:induction false} FirstFrom(ps: seq<Pulse>, n: nat, moment: int) returns (j: nat)
    requires n <= |ps| && exists k :: 0 <= k < n && ps[k].at >= moment
    ensures j < n && ps[j].at >= moment && forall k | 0 <= k < j :: ps[k].at < moment
  {
    if k :| 0 <= k < n - 1 && ps[k].at >= moment {
      j := FirstFrom(ps, n - 1, moment);
    } else {
      j := n - 1;
    }
  }

  /** After the first pulse, scheduled runs of a daily job serve ever later slots. */
  lemma SlotsAreServedInOrder(s: Schedule, ps: seq<Pulse>, i: nat, j: nat)
    requires s.Daily? && s.Sound() && Chronological(ps) && 0 < i < j < |ps|
    requires !ps[i].manual && Runs(s, ps, i) && !ps[j].manual && Runs(s, ps, j)
    ensures s.SlotOn(ps[i].at) < s.SlotOn(ps[j].at)
  {
    DailyRunsIff(s, ps, i);
    DailyRunsIff(s, ps, j);
  }

  /** A pulse falls in the window of a slot: from it to the following midnight. */
  predicate InWindow(p: Pulse, slot: int) {
    slot <= p.at < DayEnd(slot)
  }

  /**
   Without forced cycles in its window, a slot is served exactly once if some
   tick falls in the window, by the first that does, and not at all otherwise.
   */
  lemma SlotIsServedOnce(s: Schedule, ps: seq<Pulse>, slot: int, i: nat)
    requires s.Daily? && s.Sound() && Chronological(ps) && IsSlot(s, slot)
    requires forall j | 0 <= j < |ps| && InWindow(ps[j], slot) :: !ps[j].manual
    requires i < |ps| && InWindow(ps[i], slot)
    ensures Runs(s, ps, i) <==> forall j | 0 <= j < i :: !InWindow(ps[j], slot)
  {
    hide IsSlot;
    SlotReads(s, slot);
    DayOf(slot, ps[i].at);
    if i > 0 {
      DailyRunsIff(s, ps, i);
      forall j | 0 <= j < i ensures InWindow(ps[j], slot) <==> ps[j].at >= slot { }
    }
  }

  /** So a slot with a tick before midnight has one run, and only one. */
  lemma SlotIsServedExactlyOnce(s: Schedule, ps: seq<Pulse>, slot: int, k: nat) returns (i: nat)
    requires s.Daily? && s.Sound() && Chronological(ps) && IsSlot(s, slot)
    requires forall j | 0 <= j < |ps| && InWindow(ps[j], slot) :: !ps[j].manual
    requires k < |ps| && InWindow(ps[k], slot)
    ensures i < |ps| && InWindow(ps[i], slot) && Runs(s, ps, i)
    ensures forall j | 0 <= j < |ps| && InWindow(ps[j], slot) && Runs(s, ps, j) :: j == i
  {
    i := FirstFrom(ps, k + 1, slot);
    SlotIsServedOnce(s, ps, slot, i);
    forall j | 0 <= j < |ps| && InWindow(ps[j], slot) && Runs(s, ps, j) ensures j == i {
      SlotIsServedOnce(s, ps, slot, j);
    }
  }

  /**
   An interval job runs on a tick exactly when no run is less than its hours old;
   if there is no such duration, exactly when there was no run at all.
   */
  lemma IntervalRunsIff(s: Schedule, ps: seq<Pulse>, i: nat)
    requires s.Every? && Chronological(ps) && i < |ps| && !ps[i].manual
    ensures Runs(s, ps, i) <==>
              forall j | 0 <= j < i && Runs(s, ps, j) :: s.Sound() && ps[i].at - ps[j].at >= s.hours * HOUR
  {
    if LastRunBefore(s, ps, i).Some? {
      var last := LastRunWasAPulse(s, ps, i);
      forall j | 0 <= j < i && Runs(s, ps, j) ensures ps[j].at <= ps[last].at {
        LastRunIsLatest(s, ps, i, j);
      }
    } else {
      forall j | 0 <= j < i ensures !Runs(s, ps, j) {
        if Runs(s, ps, j) {
          LastRunIsLatest(s, ps, i, j);
        }
      }
    }
  }

  // --------------------------------------------- schedules that cannot exist

  /** Registration accepts 99:99 or a billion days; then at most one tick succeeds. */
  lemma UnsoundScheduleStopsTicks(jobs: seq<JobState>, i: nat, now: int)
    requires i < |jobs| && !jobs[i].schedule.Sound()
    ensures TickFaults(jobs) || TickFaults(Ticked(jobs, now))
    ensures jobs[i].lastRun.Some? ==> TickFaults(jobs)
  {
    if jobs[i].lastRun.Some? {
      assert jobs[i].schedule.DueFaults(jobs[i].lastRun);
    } else {
      assert Ticked(jobs, now)[i].schedule.DueFaults(Ticked(jobs, now)[i].lastRun);
    }
  }

  /** Ticks never fault exactly when every schedule names a time or duration that exists. */
  lemma TicksAreSafeIff(jobs: seq<JobState>, now: int)
    ensures (forall i | 0 <= i < |jobs| :: jobs[i].schedule.Sound())
            <==> !TickFaults(jobs) && !TickFaults(Ticked(jobs, now))
  {
    forall i | 0 <= i < |jobs| && !jobs[i].schedule.Sound()
      ensures TickFaults(jobs) || TickFaults(Ticked(jobs, now))
    {
      UnsoundScheduleStopsTicks(jobs, i, now);
    }
  }

  // ------------------------------------------------------------------- reports

  /** The results that ended this way, by position. */
  ghost function Those(results: seq<JobResult>, ok: bool): set<int> {
    set i | 0 <= i < |results| && results[i].ok == ok
  }

  lemma ThoseGrow(results: seq<JobResult>, ok: bool)
    requires results != []
    ensures var n := |results| - 1;
            |Those(results, ok)| == |Those(results[..n], ok)| + if results[n].ok == ok then 1 else 0
  {
    var n := |results| - 1;
    assert Those(results, ok) == Those(results[..n], ok) + if results[n].ok == ok then {n} else {};
  }

  lemma {:induction false} CountsAre(results: seq<JobResult>, ok: bool)
    ensures CountOk(results, ok) == |Those(results, ok)|
  {
    if results != [] {
      hide Those;
      CountsAre(results[..|results| - 1], ok);
      ThoseGrow(results, ok);
    }
  }

  /** A cycle with results publishes their trigger, how many of them worked, and how many failed. */
  lemma SummaryCounts(trigger: Trigger, results: seq<JobResult>)
    ensures |Summary(trigger, results)| == if results == [] then 0 else 1
    ensures results != [] ==>
            var p := Summary(trigger, results)[0];
            && p.trigger == trigger
            && p.jobsOk == |Those(results, true)|
            && p.jobsFailed == |Those(results, false)|
  {
    CountsAre(results, true);
    CountsAre(results, false);
  }
}
