/** The watermark store of src/config.py's `JobStates`: for each job file,
    the minute at which its jobs last ran. The store is only ever changed by
    `save_last_job_run`, which stamps a file with the current time truncated
    to the minute. Loading and dumping the YAML file are not modelled; the
    "%Y-%m-%d %H:%M:%S" text it stores loses nothing once seconds are zero,
    so the store keeps times directly. */
module JobStates {
  import opened Formatters

  type Store = map<string, Time>

  /** `states.save_last_job_run(job)` for a job of `file`, at time `now`. */
  function SaveLastJobRun(states: Store, file: string, now: Time): (r: Store)
    ensures r.Keys == states.Keys + {file}
    ensures r[file] == RoundTime(now)
    ensures forall f :: f in states && f != file ==> r[f] == states[f]
  {
    states[file := RoundTime(now)]
  }

  /** Saving the run of every job in `files`, one after the other, at the
      same time `now`. */
  function SaveAll(states: Store, files: seq<string>, now: Time): (r: Store)
    ensures r.Keys == states.Keys + set f | f in files
    ensures forall f :: f in files ==> r[f] == RoundTime(now)
    ensures forall f :: f in states && f !in files ==> r[f] == states[f]
    decreases |files|
  {
    if |files| == 0 then states
    else SaveAll(SaveLastJobRun(states, files[0], now), files[1..], now)
  }
}
