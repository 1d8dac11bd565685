/** The scheduler of src/jobs_.py: dating each job file with its last run,
    expanding files into one job per (entry, recipient), choosing the jobs due
    at the current hour, batching jobs that can share one query, and
    regrouping finished jobs per recipient.

    The clock is the parameter `now`; reading the YAML files is not modelled,
    a file arrives as the dict the YAML loader produced, whose keys may be
    missing. */
module Jobs {
  import opened Outcomes
  import opened Formatters
  import opened Seqs
  import opened Ordering
  import opened Sorting
  import opened Container
  import opened JobStates

  // ----- dating and expanding the job files -----

  /** One element of a file's "jobs" list: the keyword arguments it adds to
      `Job(...)`. `Malformed` stands for an entry `Job(**job)` rejects (a
      missing or unknown keyword). */
  datatype JobEntry =
    | Entry(vendor: string, products: seq<string>, params: seq<Param>)
    | Malformed

  /** A loaded job file; `None` marks a key the file does not have. */
  datatype JobFile = JobFile(
    jobs: Option<seq<JobEntry>>,
    sendTo: Option<seq<string>>,
    starttime: Option<int>,
    interval: Option<int>,
    updates: Option<bool>)

  /** A job file after `update_job_configs`: its name and its last run added. */
  datatype DatedFile = Dated(name: string, config: JobFile, lastRun: Time)

  /** `get_last_job_start`: the stored watermark, or, for a file never run,
      the current minute less `interval` hours. */
  function GetLastJobStart(states: Store, file: string, interval: int, now: Time): (r: Time)
    ensures file in states ==> r == states[file]
    ensures file !in states ==> r % MicrosPerMinute == 0
    ensures file !in states ==> r + interval * MicrosPerHour <= now < r + interval * MicrosPerHour + MicrosPerMinute
  {
    if file in states then states[file] else RoundTime(now) - interval * MicrosPerHour
  }

  /** A watermark saved for a file is what the next run starts from. */
  lemma SavedRunIsNextStart(states: Store, file: string, interval: int, saved: Time, now: Time)
    ensures GetLastJobStart(SaveLastJobRun(states, file, saved), file, interval, now) == RoundTime(saved)
  {
  }

  /** `update_job_configs` on (file name, loaded file) pairs: each file gets
      its name and its last run; a file without "interval" raises KeyError. */
  function UpdateJobConfigs(files: seq<(string, JobFile)>, states: Store, now: Time): (r: Result<seq<DatedFile>>)
    ensures r.Ok? <==> forall i :: 0 <= i < |files| ==> files[i].1.interval.Some?
    ensures r.Err? ==> r.error == KeyError
    ensures r.Ok? ==> |r.value| == |files|
    ensures r.Ok? ==> forall i :: 0 <= i < |files| ==>
              r.value[i] == Dated(files[i].0, files[i].1,
                                  GetLastJobStart(states, files[i].0, files[i].1.interval.value, now))
  {
    if |files| == 0 then Ok([])
    else
      var (name, config) := files[0];
      if config.interval.None? then Err(KeyError)
      else
        var rest :- UpdateJobConfigs(files[1..], states, now);
        assert forall i :: 1 <= i < |files| ==> files[i] == files[1..][i - 1];
        Ok([Dated(name, config, GetLastJobStart(states, name, config.interval.value, now))] + rest)
  }

  /** The header keys `Job(...)` reads inside the `try`: without one of them
      every job of the file is skipped. */
  predicate HasHeader(f: JobFile) {
    f.starttime.Some? && f.interval.Some? && f.updates.Some?
  }

  function MakeJob(d: DatedFile, e: JobEntry, address: string): Job
    requires e.Entry? && HasHeader(d.config)
  {
    Job(d.config.starttime.value, d.config.interval.value, d.config.updates.value, address,
        e.vendor, e.products, d.name, d.lastRun, e.params, None, None)
  }

  /** The innermost loop: one job per address, unless building it fails. */
  function EntryJobs(d: DatedFile, e: JobEntry, addresses: seq<string>): (r: seq<Job>)
    ensures !e.Entry? || !HasHeader(d.config) ==> r == []
    ensures e.Entry? && HasHeader(d.config) ==> |r| == |addresses|
    ensures forall a :: 0 <= a < |r| ==>
              && r[a].sendTo == addresses[a]
              && r[a].starttime == d.config.starttime.value
              && r[a].interval == d.config.interval.value
              && r[a].updates == d.config.updates.value
              && r[a].file == d.name
              && r[a].lastRun == d.lastRun
              && r[a].vendor == e.vendor && r[a].products == e.products && r[a].params == e.params
              && r[a].newCves.None? && r[a].updatedCves.None?
  {
    if e.Entry? && HasHeader(d.config) then
      seq(|addresses|, a requires 0 <= a < |addresses| => MakeJob(d, e, addresses[a]))
    else []
  }

  /** The two outer loops over one file. "send_to" is only read once there
      is an entry to expand. */
  function EntriesJobs(d: DatedFile, entries: seq<JobEntry>): (r: Result<seq<Job>>)
    ensures |entries| > 0 && d.config.sendTo.None? ==> r == Err(KeyError)
    ensures d.config.sendTo.Some? ==> r.Ok?
  {
    if |entries| == 0 then Ok([])
    else
      if d.config.sendTo.None? then Err(KeyError)
      else
        var rest :- EntriesJobs(d, entries[1..]);
        Ok(EntryJobs(d, entries[0], d.config.sendTo.value) + rest)
  }

  function FileJobs(d: DatedFile): (r: Result<seq<Job>>)
    ensures d.config.jobs.None? ==> r == Err(KeyError)
  {
    if d.config.jobs.None? then Err(KeyError) else EntriesJobs(d, d.config.jobs.value)
  }

  /** `get_jobs`, drained: the jobs of every file, in file order. */
  function GetJobs(files: seq<DatedFile>): (r: Result<seq<Job>>)
    ensures r.Ok? <==> forall i :: 0 <= i < |files| ==> FileJobs(files[i]).Ok?
  {
    if |files| == 0 then Ok([])
    else
      var head :- FileJobs(files[0]);
      var rest :- GetJobs(files[1..]);
      assert forall i :: 1 <= i < |files| ==> files[i] == files[1..][i - 1];
      Ok(head + rest)
  }

  /** `j` is the job of entry `e` for one of the addresses. */
  predicate BuiltFrom(d: DatedFile, e: JobEntry, addresses: seq<string>, j: Job) {
    e.Entry? && HasHeader(d.config) && exists a :: 0 <= a < |addresses| && j == MakeJob(d, e, addresses[a])
  }

  lemma InEntryJobs(d: DatedFile, e: JobEntry, addresses: seq<string>, j: Job)
    ensures j in EntryJobs(d, e, addresses) <==> BuiltFrom(d, e, addresses, j)
  {
    var here := EntryJobs(d, e, addresses);
    if j in here {
      var a :| 0 <= a < |here| && here[a] == j;
      assert j == MakeJob(d, e, addresses[a]);
    }
    if BuiltFrom(d, e, addresses, j) {
      var a :| 0 <= a < |addresses| && j == MakeJob(d, e, addresses[a]);
      assert here[a] == j;
    }
  }

  /** A job comes out of a file exactly when it is built from one of its
      well-formed entries and one of its addresses. */
  lemma {:induction false} EntriesJobsMembers(d: DatedFile, entries: seq<JobEntry>, j: Job)
    requires d.config.sendTo.Some?
    ensures j in EntriesJobs(d, entries).value <==>
              exists k :: 0 <= k < |entries| && BuiltFrom(d, entries[k], d.config.sendTo.value, j)
  {
    var addresses := d.config.sendTo.value;
    if |entries| > 0 {
      EntriesJobsMembers(d, entries[1..], j);
      InEntryJobs(d, entries[0], addresses, j);
      var here := EntryJobs(d, entries[0], addresses);
      assert EntriesJobs(d, entries).value == here + EntriesJobs(d, entries[1..]).value;
      assert forall k :: 1 <= k < |entries| ==> entries[1..][k - 1] == entries[k];
    }
  }

  /** The jobs of all files are exactly the jobs of each file. */
  lemma {:induction false} GetJobsMembers(files: seq<DatedFile>, j: Job)
    requires GetJobs(files).Ok?
    ensures j in GetJobs(files).value <==>
              exists i :: 0 <= i < |files| && j in FileJobs(files[i]).value
  {
    if |files| > 0 {
      GetJobsMembers(files[1..], j);
      assert forall i :: 1 <= i < |files| ==> files[i] == files[1..][i - 1];
      if exists i :: 0 <= i < |files| && j in FileJobs(files[i]).value {
        var i :| 0 <= i < |files| && j in FileJobs(files[i]).value;
        if i > 0 {
          assert j in FileJobs(files[1..][i - 1]).value;
        }
      }
    }
  }

  /** How many jobs a file yields: its well-formed entries times its
      addresses. */
  function WellFormed(entries: seq<JobEntry>): nat {
    if |entries| == 0 then 0 else (if entries[0].Entry? then 1 else 0) + WellFormed(entries[1..])
  }

  lemma {:induction false} EntriesJobsCount(d: DatedFile, entries: seq<JobEntry>)
    requires d.config.sendTo.Some? && HasHeader(d.config)
    ensures |EntriesJobs(d, entries).value| == WellFormed(entries) * |d.config.sendTo.value|
  {
    if |entries| > 0 {
      EntriesJobsCount(d, entries[1..]);
      var n := |d.config.sendTo.value|;
      var here := EntryJobs(d, entries[0], d.config.sendTo.value);
      assert EntriesJobs(d, entries).value == here + EntriesJobs(d, entries[1..]).value;
      var w := if entries[0].Entry? then 1 else 0;
      assert |here| == w * n;
      assert (w + WellFormed(entries[1..])) * n == w * n + WellFormed(entries[1..]) * n;
    }
  }

  // ----- which jobs are due -----

  /** The hour `get_job_status` uses: the current hour, or the next one from
      half past on, so 23:30 and later give 24. */
  function RoundedHour(now: Time): (h: int)
    ensures 0 <= h <= 24
    ensures h == 24 <==> Hour(now) == 23 && Minute(now) >= 30
  {
    if Minute(now) < 30 then Hour(now) else Hour(now) + 1
  }

  /** `get_job_status`: due when the rounded hour is a whole number of
      intervals after the start hour; an interval of 0 raises. */
  function GetJobStatus(job: Job, now: Time): (r: Result<bool>)
    ensures job.interval == 0 <==> r == Err(ZeroDivisionError)
    ensures job.interval != 0 ==> r.Ok?
    ensures r == Ok(true) <==> job.interval != 0 && exists k :: RoundedHour(now) - job.starttime == k * job.interval
  {
    if job.interval == 0 then Err(ZeroDivisionError)
    else
      var d := RoundedHour(now) - job.starttime;
      MultipleIffRemainder(d, job.interval);
      Ok(d % job.interval == 0)
  }

  /** Python's `d % n == 0` and Dafny's agree: both mean `n` divides `d`. */
  lemma MultipleIffRemainder(d: int, n: int)
    requires n != 0
    ensures d % n == 0 <==> exists k :: d == k * n
  {
    if d % n == 0 {
      assert d == (d / n) * n;
    }
    if exists k :: d == k * n {
      var k :| d == k * n;
      MultipleRemainder(k, n);
    }
  }

  lemma MultipleRemainder(k: int, n: int)
    requires n != 0
    ensures (k * n) % n == 0
  {
    RemainderUnique(k * n, n, k, 0);
  }

  /** Euclidean division has one remainder: any `x == q * n + r` with
      `0 <= r < |n|` names it. */
  lemma RemainderUnique(x: int, n: int, q: int, r: int)
    requires n != 0
    requires x == q * n + r && 0 <= r < (if n > 0 then n else -n)
    ensures x % n == r
  {
    var q0, r0 := x / n, x % n;
    assert x == q0 * n + r0;
    assert (q0 - q) * n == r - r0;
    if q0 != q {
      MultipleFarFromZero(q0 - q, n);
    }
  }

  /** A non-zero multiple of `n` is at least `|n|` away from zero. */
  lemma MultipleFarFromZero(m: int, n: int)
    requires m != 0 && n != 0
    ensures m * n >= (if n > 0 then n else -n) || m * n <= -(if n > 0 then n else -n)
  {
    var an := if n > 0 then n else -n;
    var am := if m > 0 then m else -m;
    assert (am - 1) * an >= 0;
    assert am * an == (am - 1) * an + an;
    assert m * n == am * an || m * n == -(am * an);
  }

  /** An hourly job is always due. */
  lemma HourlyAlwaysDue(job: Job, now: Time)
    requires job.interval == 1
    ensures GetJobStatus(job, now) == Ok(true)
  {
    assert RoundedHour(now) - job.starttime == (RoundedHour(now) - job.starttime) * 1;
  }

  /** From half past eleven at night the rounded hour is 24, not 0: a job
      every five hours from midnight is not due then, although it is due ten
      minutes after midnight. */
  lemma LateEveningIsHourTwentyFour(job: Job)
    requires job.starttime == 0 && job.interval == 5
    ensures var late := 23 * MicrosPerHour + 45 * MicrosPerMinute;
            RoundedHour(late) == 24 && GetJobStatus(job, late) == Ok(false)
    ensures var early := 10 * MicrosPerMinute;
            RoundedHour(early) == 0 && GetJobStatus(job, early) == Ok(true)
  {
    var late := 23 * MicrosPerHour + 45 * MicrosPerMinute;
    assert late / MicrosPerHour == 23;
    assert late / MicrosPerMinute == 1425;
    var early := 10 * MicrosPerMinute;
    assert early / MicrosPerHour == 0;
    assert early / MicrosPerMinute == 10;
    assert 0 == 0 * job.interval;
  }

  predicate Due(job: Job, now: Time) {
    GetJobStatus(job, now) == Ok(true)
  }

  /** `get_current_jobs`, drained: the due jobs, in order; a job with
      interval 0 makes the whole run raise. */
  function GetCurrentJobs(jobs: seq<Job>, now: Time): (r: Result<seq<Job>>)
    ensures r.Err? <==> exists i :: 0 <= i < |jobs| && jobs[i].interval == 0
    ensures r.Err? ==> r.error == ZeroDivisionError
    ensures r.Ok? ==> forall j :: j in r.value <==> j in jobs && Due(j, now)
    ensures r.Ok? ==> multiset(r.value) <= multiset(jobs)
  {
    if exists i :: 0 <= i < |jobs| && jobs[i].interval == 0 then Err(ZeroDivisionError)
    else Ok(Filter(jobs, j => Due(j, now)))
  }

  /** Filtering commutes with concatenation, so the due jobs keep their
      relative order. */
  lemma CurrentJobsAppend(a: seq<Job>, b: seq<Job>, now: Time)
    requires GetCurrentJobs(a, now).Ok? && GetCurrentJobs(b, now).Ok?
    ensures GetCurrentJobs(a + b, now) == Ok(GetCurrentJobs(a, now).value + GetCurrentJobs(b, now).value)
  {
    FilterAppend(a, b, j => Due(j, now));
    forall i | 0 <= i < |a + b| ensures (a + b)[i].interval != 0 {
      if i < |a| {
        assert (a + b)[i] == a[i];
      } else {
        assert (a + b)[i] == b[i - |a|];
      }
    }
  }

  // ----- batching jobs that share a query -----

  /** The sort and group key of `group_jobs`: the minute of the last run, the
      interval, and the parameter names and values as tuples in the dict's
      insertion order. */
  datatype GroupKey = GroupKey(run: Time, interval: int, names: seq<string>, values: seq<string>)

  function Names(ps: seq<Param>): seq<string> {
    seq(|ps|, i requires 0 <= i < |ps| => ps[i].name)
  }

  function Values(ps: seq<Param>): seq<string> {
    seq(|ps|, i requires 0 <= i < |ps| => ps[i].value)
  }

  function KeyOf(job: Job): GroupKey {
    GroupKey(RoundTime(job.lastRun), job.interval, Names(job.params), Values(job.params))
  }

  /** Python's `<` on the key tuples: component by component. */
  function TupleLt(a: seq<string>, b: seq<string>): bool {
    LexLt(a, b, StrLt)
  }

  function KeyLt(a: GroupKey, b: GroupKey): bool {
    || a.run < b.run
    || (a.run == b.run && a.interval < b.interval)
    || (a.run == b.run && a.interval == b.interval && TupleLt(a.names, b.names))
    || (a.run == b.run && a.interval == b.interval && a.names == b.names && TupleLt(a.values, b.values))
  }

  lemma TupleLtStrictTotal()
    ensures StrictTotal(TupleLt)
  {
    StrLtStrictTotal();
    forall a: seq<string> ensures !TupleLt(a, a) {
      LexIrreflexive(a, StrLt);
    }
    forall a: seq<string>, b: seq<string>, c: seq<string> | TupleLt(a, b) && TupleLt(b, c)
      ensures TupleLt(a, c)
    {
      LexTransitive(a, b, c, StrLt);
    }
    forall a: seq<string>, b: seq<string> | a != b ensures TupleLt(a, b) || TupleLt(b, a) {
      LexConnected(a, b, StrLt);
    }
  }

  lemma KeyLtStrictTotal()
    ensures StrictTotal(KeyLt)
  {
    TupleLtStrictTotal();
    forall a: GroupKey ensures !KeyLt(a, a) {
      assert !TupleLt(a.names, a.names) && !TupleLt(a.values, a.values);
    }
    forall a: GroupKey, b: GroupKey, c: GroupKey | KeyLt(a, b) && KeyLt(b, c) ensures KeyLt(a, c) {
      KeyLtTransitive(a, b, c);
    }
    forall a: GroupKey, b: GroupKey | a != b ensures KeyLt(a, b) || KeyLt(b, a) {
      if a.run == b.run && a.interval == b.interval {
        if a.names == b.names {
          assert a.values != b.values;
          assert TupleLt(a.values, b.values) || TupleLt(b.values, a.values);
        } else {
          assert TupleLt(a.names, b.names) || TupleLt(b.names, a.names);
        }
      }
    }
  }

  lemma KeyLtTransitive(a: GroupKey, b: GroupKey, c: GroupKey)
    requires StrictTotal(TupleLt)
    requires KeyLt(a, b) && KeyLt(b, c)
    ensures KeyLt(a, c)
  {
    if a.run == b.run == c.run && a.interval == b.interval == c.interval {
      if a.names == b.names && b.names == c.names {
        assert TupleLt(a.values, b.values) && TupleLt(b.values, c.values);
      } else if a.names == b.names {
        assert TupleLt(b.names, c.names);
      } else if b.names == c.names {
        assert TupleLt(a.names, b.names);
      } else {
        assert TupleLt(a.names, b.names) && TupleLt(b.names, c.names);
      }
    }
  }

  /** `group_jobs`: sort by the key, then cut into runs of equal keys. */
  function GroupJobs(jobs: seq<Job>): seq<seq<Job>> {
    GroupBy(SortBy(jobs, KeyOf, KeyLt), KeyOf)
  }

  /** The batches partition the input: together they hold every job exactly
      as often as the input does, in the stable sort order, each batch is
      non-empty and shares one key, and each key's jobs keep their order. */
  lemma GroupJobsPartition(jobs: seq<Job>)
    ensures Flatten(GroupJobs(jobs)) == SortBy(jobs, KeyOf, KeyLt)
    ensures multiset(Flatten(GroupJobs(jobs))) == multiset(jobs)
    ensures forall i :: 0 <= i < |GroupJobs(jobs)| ==> |GroupJobs(jobs)[i]| > 0
    ensures forall i, a :: 0 <= i < |GroupJobs(jobs)| && 0 <= a < |GroupJobs(jobs)[i]|
              ==> KeyOf(GroupJobs(jobs)[i][a]) == KeyOf(GroupJobs(jobs)[i][0])
    ensures SameKeyOrder(Flatten(GroupJobs(jobs)), jobs, KeyOf)
  {
    KeyLtStrictTotal();
    SortByStable(jobs, KeyOf, KeyLt);
  }

  /** Jobs with equal keys always share a batch, whatever the input order. */
  lemma GroupJobsSameKeySameGroup(jobs: seq<Job>)
    ensures DistinctGroupKeys(GroupJobs(jobs), KeyOf)
  {
    KeyLtStrictTotal();
    SortBySorted(jobs, KeyOf, KeyLt);
    GroupsOfSortedAreDistinct(SortBy(jobs, KeyOf, KeyLt), KeyOf, KeyLt);
  }

  // ----- one mail per recipient -----

  function SendTo(job: Job): string {
    job.sendTo
  }

  /** `join_jobs_for_recipient`: all jobs of all batches, sorted by recipient
      and cut into runs of one recipient. */
  function JoinJobsForRecipient(groups: seq<seq<Job>>): seq<seq<Job>> {
    GroupBy(SortBy(Flatten(groups), SendTo, StrLt), SendTo)
  }

  lemma JoinJobsPartition(groups: seq<seq<Job>>)
    ensures multiset(Flatten(JoinJobsForRecipient(groups))) == multiset(Flatten(groups))
    ensures forall i :: 0 <= i < |JoinJobsForRecipient(groups)| ==> |JoinJobsForRecipient(groups)[i]| > 0
    ensures forall i, a :: 0 <= i < |JoinJobsForRecipient(groups)| && 0 <= a < |JoinJobsForRecipient(groups)[i]|
              ==> JoinJobsForRecipient(groups)[i][a].sendTo == JoinJobsForRecipient(groups)[i][0].sendTo
    ensures SameKeyOrder(Flatten(JoinJobsForRecipient(groups)), Flatten(groups), SendTo)
  {
    StrLtStrictTotal();
    SortByStable(Flatten(groups), SendTo, StrLt);
  }

  /** No recipient gets two mails. */
  lemma JoinJobsDistinctRecipients(groups: seq<seq<Job>>)
    ensures DistinctGroupKeys(JoinJobsForRecipient(groups), SendTo)
  {
    StrLtStrictTotal();
    SortBySorted(Flatten(groups), SendTo, StrLt);
    GroupsOfSortedAreDistinct(SortBy(Flatten(groups), SendTo, StrLt), SendTo, StrLt);
  }
}
