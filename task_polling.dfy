/** `wait_on_tasks`: polling a set of remote export tasks until every one has
    reached a terminal state, reporting each as it finishes. The remote status
    is an oracle: a function from the polling round and the task id to the
    status the service returns. The sleep between rounds and the progress bar
    are not modelled; the progress bar's count is the number of reports. */
module TaskPolling {
  import opened Common
  import opened Seqs

  /** The states of an Earth Engine batch task. */
  datatype TaskState = Unsubmitted | Ready | Running | Completed | Failed | CancelRequested | Cancelled

  datatype TaskStatus = TaskStatus(state: TaskState, errorMessage: string, creationMs: int, updateMs: int)

  /** One "Task ... finished in ... min with state: ..." line; a failed task
      carries its error message next to its state. */
  datatype Report<K> = Report(id: K, state: TaskState, errorMessage: Option<string>, elapsedMin: int)

  /** COMPLETED, FAILED, CANCEL_REQUESTED and CANCELLED end the polling of a task. */
  predicate IsDone(s: TaskState)
  {
    s == Completed || s == Failed || s == CancelRequested || s == Cancelled
  }

  /** `int((ms / 1000) / 60)`: Python's `int` truncates toward zero. */
  function ElapsedMinutes(ms: int): (m: int)
    ensures ms >= 0 ==> m >= 0 && m * 60000 <= ms < (m + 1) * 60000
    ensures ms < 0 ==> m <= 0 && -ms - 60000 < -m * 60000 <= -ms
  {
    if ms >= 0 then ms / 60000 else -((-ms) / 60000)
  }

  /** A negative span (clock skew) of under a minute reads as 0 minutes, not -1. */
  lemma ElapsedTruncatesTowardZero()
    ensures ElapsedMinutes(-1) == 0 && ElapsedMinutes(-60000) == -1
    ensures ElapsedMinutes(59999) == 0 && ElapsedMinutes(60000) == 1
  {
  }

  function ReportOf<K>(id: K, st: TaskStatus): (r: Report<K>)
    requires IsDone(st.state)
    ensures r.id == id && r.state == st.state
    ensures r.errorMessage.Some? <==> st.state == Failed
    ensures r.errorMessage.Some? ==> r.errorMessage.value == st.errorMessage
    ensures r.elapsedMin == ElapsedMinutes(st.updateMs - st.creationMs)
  {
    Report(id, st.state, if st.state == Failed then Some(st.errorMessage) else None,
           ElapsedMinutes(st.updateMs - st.creationMs))
  }

  function DonePred<K>(status: K -> TaskStatus): K -> bool
  {
    id => IsDone(status(id).state)
  }

  function ReportIds<K>(reports: seq<Report<K>>): (r: seq<K>)
    ensures |r| == |reports|
    ensures forall i :: 0 <= i < |reports| ==> r[i] == reports[i].id
  {
    seq(|reports|, i requires 0 <= i < |reports| => reports[i].id)
  }

  /** Every report is of a finished task and carries the state, error message
      and elapsed time of that task's status. */
  ghost predicate ReportsMatch<K>(reports: seq<Report<K>>, status: K -> TaskStatus)
  {
    forall i :: 0 <= i < |reports| ==>
      IsDone(reports[i].state) && IsDone(status(reports[i].id).state) &&
      reports[i] == ReportOf(reports[i].id, status(reports[i].id))
  }

  lemma ReportsMatchSnoc<K>(reports: seq<Report<K>>, rep: Report<K>, status: K -> TaskStatus)
    requires ReportsMatch(reports, status)
    requires IsDone(status(rep.id).state) && rep == ReportOf(rep.id, status(rep.id))
    ensures ReportsMatch(reports + [rep], status)
  {
    var rs := reports + [rep];
    forall i | 0 <= i < |rs|
      ensures IsDone(rs[i].state) && IsDone(status(rs[i].id).state) && rs[i] == ReportOf(rs[i].id, status(rs[i].id))
    {
      if i < |reports| {
        assert rs[i] == reports[i];
      }
    }
  }

  /** One pass of the `for taskID in remaining_tasks` loop: the tasks still
      running stay, in their order; the finished ones are reported, in their order. */
  method PollRound<K>(remaining: seq<K>, status: K -> TaskStatus) returns (next: seq<K>, reports: seq<Report<K>>)
    ensures next == Reject(remaining, DonePred(status))
    ensures forall i :: 0 <= i < |next| ==> !IsDone(status(next[i]).state)
    ensures ReportIds(reports) == Filter(remaining, DonePred(status))
    ensures ReportsMatch(reports, status)
    ensures multiset(ReportIds(reports)) + multiset(next) == multiset(remaining)
    ensures IsSubseq(next, remaining)
  {
    next := [];
    reports := [];
    for i := 0 to |remaining|
      invariant next == Reject(remaining[..i], DonePred(status))
      invariant ReportIds(reports) == Filter(remaining[..i], DonePred(status))
      invariant ReportsMatch(reports, status)
    {
      var id := remaining[i];
      var st := status(id);
      RoundStep(remaining, i, status);
      if IsDone(st.state) {
        var rep := ReportOf(id, st);
        ReportIdsSnoc(reports, rep);
        ReportsMatchSnoc(reports, rep, status);
        reports := reports + [rep];
      } else {
        next := next + [id];
      }
    }
    assert remaining[..|remaining|] == remaining;
    RoundPartitions(remaining, status);
  }

  /** Polling task `i` extends one of the two parts by that task. */
  lemma RoundStep<K>(remaining: seq<K>, i: nat, status: K -> TaskStatus)
    requires i < |remaining|
    ensures IsDone(status(remaining[i]).state) ==>
              Filter(remaining[..i + 1], DonePred(status)) == Filter(remaining[..i], DonePred(status)) + [remaining[i]] &&
              Reject(remaining[..i + 1], DonePred(status)) == Reject(remaining[..i], DonePred(status))
    ensures !IsDone(status(remaining[i]).state) ==>
              Filter(remaining[..i + 1], DonePred(status)) == Filter(remaining[..i], DonePred(status)) &&
              Reject(remaining[..i + 1], DonePred(status)) == Reject(remaining[..i], DonePred(status)) + [remaining[i]]
  {
    assert remaining[..i + 1] == remaining[..i] + [remaining[i]];
    FilterSnoc(remaining[..i], remaining[i], DonePred(status));
    RejectSnoc(remaining[..i], remaining[i], DonePred(status));
  }

  lemma ReportIdsSnoc<K>(reports: seq<Report<K>>, rep: Report<K>)
    ensures ReportIds(reports + [rep]) == ReportIds(reports) + [rep.id]
  {
    assert ReportIds(reports + [rep])[|reports|] == rep.id;
  }

  /** A round splits the remaining tasks without loss: the reported ones and the
      ones kept together are the remaining ones, and both keep their order. */
  lemma RoundPartitions<K>(remaining: seq<K>, status: K -> TaskStatus)
    ensures multiset(Filter(remaining, DonePred(status))) + multiset(Reject(remaining, DonePred(status)))
            == multiset(remaining)
    ensures IsSubseq(Filter(remaining, DonePred(status)), remaining)
    ensures IsSubseq(Reject(remaining, DonePred(status)), remaining)
  {
    FilterRejectPartition(remaining, DonePred(status));
    FilterIsSubseq(remaining, DonePred(status));
  }

  predicate Distinct<T(==)>(s: seq<T>) { forall i, j :: 0 <= i < j < |s| ==> s[i] != s[j] }

  /** The polling loop, run for at most `maxRounds` rounds (the source loops
      until nothing remains; the bound stands for the remote jobs ending).
      Round `k` sees the statuses `status(k, _)`. */
  method WaitOnTasks<K(==)>(tasks: seq<K>, status: (nat, K) -> TaskStatus, maxRounds: nat)
    returns (log: seq<Report<K>>, remaining: seq<K>, rounds: nat)
    ensures rounds <= maxRounds
    ensures remaining == [] || rounds == maxRounds
    ensures multiset(ReportIds(log)) + multiset(remaining) == multiset(tasks)
    ensures IsSubseq(remaining, tasks)
    ensures AllDone(log)
    ensures LogMatches(log, status, rounds)
  {
    log := [];
    remaining := tasks;
    rounds := 0;
    SubseqRefl(tasks);
    while remaining != [] && rounds < maxRounds
      invariant rounds <= maxRounds
      decreases maxRounds - rounds
      invariant multiset(ReportIds(log)) + multiset(remaining) == multiset(tasks)
      invariant IsSubseq(remaining, tasks)
      invariant AllDone(log)
      invariant LogMatches(log, status, rounds)
    {
      var next, reports := PollRound(remaining, (id: K) => status(rounds, id));
      SubseqTrans(next, remaining, tasks);
      LogStep(tasks, log, reports, remaining, next, (id: K) => status(rounds, id));
      LogMatchesStep(log, reports, status, rounds);
      log := log + reports;
      remaining := next;
      rounds := rounds + 1;
    }
  }

  /** `rep` is the report of its task's status in one of the first `rounds` rounds. */
  ghost predicate ReportedInRound<K>(rep: Report<K>, status: (nat, K) -> TaskStatus, rounds: nat)
  {
    exists k: nat :: k < rounds && IsDone(status(k, rep.id).state) && rep == ReportOf(rep.id, status(k, rep.id))
  }

  /** Every logged report is the report of its task's status in some round. */
  ghost predicate LogMatches<K>(log: seq<Report<K>>, status: (nat, K) -> TaskStatus, rounds: nat)
  {
    forall i :: 0 <= i < |log| ==> ReportedInRound(log[i], status, rounds)
  }

  /** Appending round `rounds`' reports keeps every report tied to a round. */
  lemma LogMatchesStep<K>(log: seq<Report<K>>, reports: seq<Report<K>>, status: (nat, K) -> TaskStatus, rounds: nat)
    requires LogMatches(log, status, rounds)
    requires ReportsMatch(reports, (id: K) => status(rounds, id))
    ensures LogMatches(log + reports, status, rounds + 1)
  {
    var all := log + reports;
    forall i | 0 <= i < |all|
      ensures ReportedInRound(all[i], status, rounds + 1)
    {
      if i < |log| {
        var k: nat :| k < rounds && IsDone(status(k, log[i].id).state) && log[i] == ReportOf(log[i].id, status(k, log[i].id));
        assert all[i] == log[i];
      } else {
        var rep := reports[i - |log|];
        assert all[i] == rep;
        assert IsDone(status(rounds, rep.id).state) && rep == ReportOf(rep.id, status(rounds, rep.id));
      }
    }
  }

  /** Every logged report is of a finished task. */
  predicate AllDone<K>(log: seq<Report<K>>)
  {
    forall i :: 0 <= i < |log| ==> IsDone(log[i].state)
  }

  /** Appending a round's reports to the log keeps the log and the remaining
      tasks a split of all tasks. */
  lemma LogStep<K>(tasks: seq<K>, log: seq<Report<K>>, reports: seq<Report<K>>, remaining: seq<K>, next: seq<K>,
                   status: K -> TaskStatus)
    requires multiset(ReportIds(log)) + multiset(remaining) == multiset(tasks)
    requires multiset(ReportIds(reports)) + multiset(next) == multiset(remaining)
    requires AllDone(log) && ReportsMatch(reports, status)
    ensures multiset(ReportIds(log + reports)) + multiset(next) == multiset(tasks)
    ensures AllDone(log + reports)
  {
    assert ReportIds(log + reports) == ReportIds(log) + ReportIds(reports);
    var l := log + reports;
    forall i | 0 <= i < |l|
      ensures IsDone(l[i].state)
    {
      if i >= |log| {
        assert l[i] == reports[i - |log|];
      }
    }
  }

  /** With distinct task ids, no task is both reported and still polled, and no
      task is reported twice; once nothing remains, every task was reported. */
  lemma ReportedOnce<K>(tasks: seq<K>, reported: seq<K>, remaining: seq<K>)
    requires Distinct(tasks)
    requires multiset(reported) + multiset(remaining) == multiset(tasks)
    ensures forall i :: 0 <= i < |reported| ==> reported[i] !in remaining
    ensures Distinct(reported)
    ensures remaining == [] ==> multiset(reported) == multiset(tasks)
  {
    forall x | x in multiset(tasks)
      ensures multiset(tasks)[x] == 1
    {
      var i :| 0 <= i < |tasks| && tasks[i] == x;
      DistinctCount(tasks, i);
    }
    forall i | 0 <= i < |reported|
      ensures reported[i] !in remaining
    {
      var x := reported[i];
      assert multiset(tasks)[x] == multiset(reported)[x] + multiset(remaining)[x];
      assert x in multiset(tasks);
      assert multiset(remaining)[x] == 0;
    }
    forall i, j | 0 <= i < j < |reported|
      ensures reported[i] != reported[j]
    {
      var x := reported[i];
      CountTwo(reported, i, j);
      assert multiset(tasks)[x] == multiset(reported)[x] + multiset(remaining)[x];
      assert x in multiset(tasks);
      assert multiset(reported)[x] <= 1;
    }
  }

  lemma {:induction false} DistinctCount<T>(s: seq<T>, i: nat)
    requires Distinct(s) && i < |s|
    ensures multiset(s)[s[i]] == 1
  {
    var x := s[i];
    assert s == s[..i] + [x] + s[i + 1..];
    assert x !in s[..i] && x !in s[i + 1..];
  }

  lemma CountTwo<T>(s: seq<T>, i: nat, j: nat)
    requires i < j < |s|
    ensures s[i] == s[j] ==> multiset(s)[s[i]] >= 2
  {
    assert s == s[..i] + [s[i]] + s[i + 1..j] + [s[j]] + s[j + 1..];
  }
}
