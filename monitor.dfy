// One pass of the monitor's polling loop (Scripts/github_actions_monitor.py:465-518):
// the run-id watermark that decides which workflow runs are looked at, and
// what is done with a failed run's log. Fetching runs and logs, committing
// and pushing, and sleeping are outside the model: the runs and their logs
// are inputs, and the commits are reported by the fix count each would carry.

module Monitor {
  import opened Wrappers
  import opened LogParser
  import opened AutoFix

  /** A workflow run as the runs listing reports it. */
  datatype Run = Run(id: nat, status: string, conclusion: string)

  /** Python truthiness of `last_checked_run_id`: None and 0 are both false. */
  predicate IsSet(mark: Option<nat>) { mark.Some? && mark.value != 0 }

  /** The run was checked on an earlier pass or earlier in this one. */
  predicate Skipped(mark: Option<nat>, id: nat) { IsSet(mark) && id <= mark.value }

  predicate IsFailedRun(r: Run) { r.status == "completed" && r.conclusion == "failure" }

  /** The watermark after a run that was not skipped. */
  function Advance(mark: Option<nat>, id: nat): Option<nat>
  {
    if !IsSet(mark) || id > mark.value then Some(id) else mark
  }

  /** The watermark after the runs of a pass, and the ids of the failed runs
      whose logs the pass examines, in listing order. */
  function Scan(mark: Option<nat>, runs: seq<Run>): (r: (Option<nat>, seq<nat>))
    ensures |r.1| <= |runs|
    ensures forall id :: id in r.1 ==> exists run :: run in runs && run.id == id && IsFailedRun(run)
    decreases |runs|
  {
    if runs == [] then (mark, [])
    else
      var prefix := runs[..|runs| - 1];
      var before := Scan(mark, prefix);
      assert forall run :: run in prefix ==> run in runs;
      var r := runs[|runs| - 1];
      if Skipped(before.0, r.id) then before
      else (Advance(before.0, r.id), before.1 + (if IsFailedRun(r) then [r.id] else []))
  }

  function MarkValue(mark: Option<nat>): nat { if mark.Some? then mark.value else 0 }

  /** The largest of `n` and the ids of `runs`. */
  function MaxId(n: nat, runs: seq<Run>): (m: nat)
    ensures m >= n && forall k :: 0 <= k < |runs| ==> m >= runs[k].id
    decreases |runs|
  {
    if runs == [] then n
    else
      var m := MaxId(n, runs[..|runs| - 1]);
      assert forall k :: 0 <= k < |runs| - 1 ==> runs[..|runs| - 1][k] == runs[k];
      if runs[|runs| - 1].id > m then runs[|runs| - 1].id else m
  }

  /** The largest id seen so far: the old watermark's and those of `runs`. */
  function Seen(mark: Option<nat>, runs: seq<Run>): nat { MaxId(MarkValue(mark), runs) }

  /** The failed runs that exceed every id seen before them (0 counting as
      nothing seen): the reference reading of the run filter. */
  function Examined(mark: Option<nat>, runs: seq<Run>): seq<nat>
    decreases |runs|
  {
    if runs == [] then []
    else
      var prefix := runs[..|runs| - 1];
      var r := runs[|runs| - 1];
      var seen := Seen(mark, prefix);
      Examined(mark, prefix) + (if IsFailedRun(r) && (seen == 0 || r.id > seen) then [r.id] else [])
  }

  /** After a pass the watermark is the largest id seen, unless the pass saw no run. */
  lemma {:induction false} ScanMarkIsMax(mark: Option<nat>, runs: seq<Run>)
    ensures Scan(mark, runs).0 == if runs == [] then mark else Some(Seen(mark, runs))
    decreases |runs|
  {
    if runs != [] {
      var prefix := runs[..|runs| - 1];
      var r := runs[|runs| - 1];
      ScanMarkIsMax(mark, prefix);
      var before := Scan(mark, prefix);
      var seen := Seen(mark, prefix);
      assert Seen(mark, runs) == if r.id > seen then r.id else seen;
      assert before.0 == mark || before.0 == Some(seen);
      assert IsSet(before.0) <==> seen != 0;
      assert IsSet(before.0) ==> before.0 == Some(seen);
    }
  }

  /** The watermark never goes down. */
  lemma WatermarkMonotone(mark: Option<nat>, runs: seq<Run>)
    ensures IsSet(mark) ==> Scan(mark, runs).0.Some? && Scan(mark, runs).0.value >= mark.value
  {
    ScanMarkIsMax(mark, runs);
  }

  /** The pass examines exactly the reference selection of runs. */
  lemma {:induction false} ScanExamines(mark: Option<nat>, runs: seq<Run>)
    ensures Scan(mark, runs).1 == Examined(mark, runs)
    decreases |runs|
  {
    if runs != [] {
      var prefix := runs[..|runs| - 1];
      ScanExamines(mark, prefix);
      ScanMarkIsMax(mark, prefix);
    }
  }

  /** The log text `get_workflow_logs` would return for a run; a run without a
      log gives None, which the loop treats like an empty log. */
  function LogOf(logs: map<nat, string>, id: nat): string
  {
    if id in logs then logs[id] else ""
  }

  /** Handling one examined run: fix the errors its log reports, and commit
      when at least one fix applied. */
  function HandleRun(id: nat, logs: map<nat, string>, files: Files, repoPath: string): (r: (Files, seq<nat>))
    ensures |r.1| <= 1 && forall k :: 0 <= k < |r.1| ==> 0 < r.1[k] <= |ExtractSpec(LogOf(logs, id))|
  {
    var log := LogOf(logs, id);
    if log == "" then (files, [])
    else
      var errors := ExtractSpec(log);
      if errors == [] then (files, [])
      else
        var fixed := FixAll(errors, files, repoPath);
        (fixed.1, if fixed.0 > 0 then [fixed.0] else [])
  }

  /** The tree after handling the examined runs in order, and the fix count of
      each commit made. */
  function HandleAll(ids: seq<nat>, logs: map<nat, string>, files: Files, repoPath: string): (r: (Files, seq<nat>))
    ensures |r.1| <= |ids|
    decreases |ids|
  {
    if ids == [] then (files, [])
    else
      var before := HandleAll(ids[..|ids| - 1], logs, files, repoPath);
      var step := HandleRun(ids[|ids| - 1], logs, before.0, repoPath);
      (step.0, before.1 + step.1)
  }

  lemma HandleRunShape(id: nat, logs: map<nat, string>, files: Files, repoPath: string)
    ensures var r := HandleRun(id, logs, files, repoPath);
      r.0.Keys == files.Keys && |r.1| <= 1 && forall k :: 0 <= k < |r.1| ==> r.1[k] > 0
  {
    var log := LogOf(logs, id);
    if log != "" {
      var errors := ExtractSpec(log);
      if errors != [] {
        var fixed := FixAll(errors, files, repoPath);
        FixAllKeepsFiles(errors, files, repoPath);
        assert HandleRun(id, logs, files, repoPath) == (fixed.1, if fixed.0 > 0 then [fixed.0] else []);
      }
    }
  }

  /** Every commit carries at least one fix, there is at most one commit per
      examined run, and the pass rewrites no file that was not there. */
  lemma {:induction false} HandleAllCommits(ids: seq<nat>, logs: map<nat, string>, files: Files, repoPath: string)
    ensures var r := HandleAll(ids, logs, files, repoPath);
      r.0.Keys == files.Keys && |r.1| <= |ids| && forall k :: 0 <= k < |r.1| ==> r.1[k] > 0
    decreases |ids|
  {
    if ids != [] {
      var before := HandleAll(ids[..|ids| - 1], logs, files, repoPath);
      HandleAllCommits(ids[..|ids| - 1], logs, files, repoPath);
      HandleRunShape(ids[|ids| - 1], logs, before.0, repoPath);
    }
  }

  lemma HandleAllSnoc(ids: seq<nat>, id: nat, logs: map<nat, string>, files: Files, repoPath: string)
    ensures var before := HandleAll(ids, logs, files, repoPath);
      var step := HandleRun(id, logs, before.0, repoPath);
      HandleAll(ids + [id], logs, files, repoPath) == (step.0, before.1 + step.1)
  {
    assert (ids + [id])[..|ids|] == ids;
  }

  lemma ScanSnoc(mark: Option<nat>, runs: seq<Run>, i: nat)
    requires i < |runs|
    ensures var before := Scan(mark, runs[..i]);
      Scan(mark, runs[..i + 1]) ==
        if Skipped(before.0, runs[i].id) then before
        else (Advance(before.0, runs[i].id), before.1 + (if IsFailedRun(runs[i]) then [runs[i].id] else []))
  {
    assert runs[..i + 1][..i] == runs[..i];
  }

  /** The monitor object; only the watermark survives from pass to pass. */
  class RunMonitor {
    var lastCheckedRunId: Option<nat>

    constructor ()
      ensures lastCheckedRunId == None
    {
      lastCheckedRunId := None;
    }

    /** Handles one failed run's log text. */
    method HandleFailedRun(log: string, files: Files, repoPath: string) returns (after: Files, commits: seq<nat>)
      ensures (after, commits) == (if log == "" then (files, []) else
        var errors := ExtractSpec(log);
        if errors == [] then (files, []) else
          var fixed := FixAll(errors, files, repoPath);
          (fixed.1, if fixed.0 > 0 then [fixed.0] else []))
    {
      after, commits := files, [];
      if log != "" {
        var errors := ExtractBuildErrors(log);
        if errors != [] {
          var fixesCount;
          fixesCount, after := FixErrors(errors, files, repoPath);
          if fixesCount > 0 {
            commits := [fixesCount];
          }
        }
      }
    }

    /** One pass over the listed runs. */
    method Poll(runs: seq<Run>, logs: map<nat, string>, files: Files, repoPath: string)
      returns (after: Files, commits: seq<nat>)
      modifies this
      ensures lastCheckedRunId == Scan(old(lastCheckedRunId), runs).0
      ensures (after, commits) == HandleAll(Scan(old(lastCheckedRunId), runs).1, logs, files, repoPath)
    {
      ghost var mark0 := lastCheckedRunId;
      ghost var examined: seq<nat> := [];
      after, commits := files, [];
      assert runs[..0] == [];
      for i := 0 to |runs|
        invariant (lastCheckedRunId, examined) == Scan(mark0, runs[..i])
        invariant (after, commits) == HandleAll(examined, logs, files, repoPath)
      {
        ScanSnoc(mark0, runs, i);
        var run := runs[i];
        var runId := run.id;
        if IsSet(lastCheckedRunId) && runId <= lastCheckedRunId.value {
          continue;
        }
        if !IsSet(lastCheckedRunId) || runId > lastCheckedRunId.value {
          lastCheckedRunId := Some(runId);
        }
        if !(run.status == "completed" && run.conclusion == "failure") {
          assert examined + [] == examined;
        } else {
          HandleAllSnoc(examined, runId, logs, files, repoPath);
          var more;
          after, more := HandleFailedRun(LogOf(logs, runId), after, repoPath);
          commits := commits + more;
          examined := examined + [runId];
        }
      }
      assert runs[..|runs|] == runs;
    }
  }
}
