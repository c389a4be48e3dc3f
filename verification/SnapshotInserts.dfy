/** Two transactions creating the row of one user and URL: when an insert succeeds, when it
    waits, and when it raises and takes its transaction with it. */
module SnapshotInserts {
  import opened Wrappers
  import opened SnapshotStore
  import opened SnapshotProtocol

  /** The row is being created by a transaction that is still open. */
  predicate Creating(s: State, j: nat, pid: nat, user: nat, url: string) {
    j in s.jobs && Keyed(s.jobs[j], user, url) && j in s.undo && s.undo[j] == Undo(pid, None)
  }

  /** The row is there for everybody: committed, whatever is being changed on it. */
  predicate Present(s: State, j: nat, user: nat, url: string) {
    j in s.jobs && Keyed(s.jobs[j], user, url) && (j in s.undo ==> s.undo[j].before.Some?)
  }

  ghost predicate CanInsert(s: State, pid: nat, url: string) {
    exists j :: Enabled(s, InsertJob(pid, url, j))
  }

  ghost predicate Raises(s: State, pid: nat, url: string) {
    Enabled(s, InsertRaises(pid, url))
  }

  /** The insert waits for another transaction to end. */
  ghost predicate Waits(s: State, pid: nat, url: string) {
    pid in s.processes && !CanInsert(s, pid, url) && !Raises(s, pid, url)
  }

  // ------------------------------------------------------------------ exactly when

  lemma TakenOnce(s: State, i: nat, j: nat, user: nat, url: string)
    requires Inv(s) && i in s.jobs && j in s.jobs && Keyed(s.jobs[i], user, url) && Keyed(s.jobs[j], user, url)
    ensures i == j
  {
  }

  /** A version that is read has the user and URL of the row. */
  lemma SeenKey(s: State, pid: nat, j: nat)
    requires Inv(s) && JobSeen(s, pid, j).Some?
    ensures j in s.jobs && JobSeen(s, pid, j).value.user == s.jobs[j].user && JobSeen(s, pid, j).value.url == s.jobs[j].url
  {
  }

  lemma FindsTaken(s: State, pid: nat, user: nat, url: string)
    requires Inv(s) && FindsJob(s, pid, user, url)
    ensures exists j :: j in s.jobs && Keyed(s.jobs[j], user, url) && JobSeen(s, pid, j).Some?
  {
    var j :| JobSeen(s, pid, j).Some? && Keyed(JobSeen(s, pid, j).value, user, url);
    SeenKey(s, pid, j);
  }

  /** An insert succeeds if and only if the user has no row for the URL, committed or not;
      it waits if and only if another open transaction is creating one; otherwise it raises. */
  lemma InsertOutcome(s: State, pid: nat, url: string)
    requires Inv(s) && pid in s.processes
    ensures var user := s.processes[pid].user;
      && (CanInsert(s, pid, url) <==> !Taken(s, user, url))
      && (Waits(s, pid, url) <==> exists j, other :: other != pid && Creating(s, j, other, user, url))
      && (Raises(s, pid, url) <==> FindsJob(s, pid, user, url))
      && !(CanInsert(s, pid, url) && Raises(s, pid, url))
  {
    var user := s.processes[pid].user;
    if Taken(s, user, url) {
      var j :| j in s.jobs && Keyed(s.jobs[j], user, url);
      TakenOutcome(s, pid, url, j);
    } else {
      var id := Unused(s.jobs.Keys + s.undo.Keys);
      assert Enabled(s, InsertJob(pid, url, id));
      if FindsJob(s, pid, user, url) {
        FindsTaken(s, pid, user, url);
      }
    }
  }

  /** A transaction finds the user's row for the URL exactly if it sees the one there is. */
  lemma OnlyRowFound(s: State, pid: nat, j: nat, user: nat, url: string)
    requires Inv(s) && j in s.jobs && Keyed(s.jobs[j], user, url)
    ensures FindsJob(s, pid, user, url) <==> JobSeen(s, pid, j).Some?
  {
    if JobSeen(s, pid, j).Some? {
      SeenKey(s, pid, j);
    }
    forall i | JobSeen(s, pid, i).Some? && Keyed(JobSeen(s, pid, i).value, user, url) ensures i == j {
      SeenKey(s, pid, i);
      TakenOnce(s, i, j, user, url);
    }
  }

  lemma TakenOutcome(s: State, pid: nat, url: string, j: nat)
    requires Inv(s) && pid in s.processes && j in s.jobs && Keyed(s.jobs[j], s.processes[pid].user, url)
    ensures var user := s.processes[pid].user;
      && !CanInsert(s, pid, url)
      && (Waits(s, pid, url) <==> exists i, other :: other != pid && Creating(s, i, other, user, url))
  {
    var user := s.processes[pid].user;
    OnlyRowFound(s, pid, j, user, url);
    if Waits(s, pid, url) {
      assert Creating(s, j, s.undo[j].pid, user, url);
    }
    forall i, other | other != pid && Creating(s, i, other, user, url) ensures JobSeen(s, pid, j).None? {
      TakenOnce(s, i, j, user, url);
    }
  }

  // -------------------------------------------------------------------- over a run

  predicate Ends(step: Step, pid: nat) {
    (step.Commit? || step.Abort? || step.InsertRaises?) && step.pid == pid
  }

  lemma StepKeepsCreating(s: State, step: Step, j: nat, pid: nat, user: nat, url: string)
    requires Creating(s, j, pid, user, url) && !Ends(step, pid)
    ensures Creating(Next(s, step), j, pid, user, url)
  {
    if Enabled(s, step) && (step.Abort? || step.InsertRaises?) {
      assert Next(s, step) == RolledBack(s, step.pid);
      RollbackKeepsCreating(s, step.pid, j, pid, user, url);
    }
  }

  lemma RollbackKeepsCreating(s: State, other: nat, j: nat, pid: nat, user: nat, url: string)
    requires Creating(s, j, pid, user, url) && other != pid
    ensures Creating(RolledBack(s, other), j, pid, user, url)
  {
    assert !Mine(s, other, j);
  }

  lemma {:induction false} RunKeepsCreating(s: State, steps: seq<Step>, j: nat, pid: nat, user: nat, url: string)
    requires Inv(s) && Creating(s, j, pid, user, url)
    requires forall k | 0 <= k < |steps| :: !Ends(steps[k], pid)
    ensures Creating(After(s, steps), j, pid, user, url)
  {
    if steps != [] {
      var front := steps[..|steps| - 1];
      RunKeepsCreating(s, front, j, pid, user, url);
      RunKeepsInv(s, front);
      StepKeepsCreating(After(s, front), steps[|steps| - 1], j, pid, user, url);
    }
  }

  /** While the transaction that has inserted is open, every other insert of the same user
      and URL waits, over every run. */
  lemma OneCreator(s: State, first: Step, steps: seq<Step>, pid: nat)
    requires Inv(s) && first.InsertJob? && Enabled(s, first) && pid != first.pid
    requires forall k | 0 <= k < |steps| :: !Ends(steps[k], first.pid)
    requires var t := After(Next(s, first), steps);
      pid in t.processes && t.processes[pid].user == s.processes[first.pid].user
    ensures Waits(After(Next(s, first), steps), pid, first.url)
  {
    var t := Next(s, first);
    StepKeepsInv(s, first);
    RunKeepsCreating(t, steps, first.job, first.pid, s.processes[first.pid].user, first.url);
    RunKeepsInv(t, steps);
    InsertOutcome(After(t, steps), pid, first.url);
  }

  /** If it rolls back, the waiting insert can go ahead. */
  lemma AbortLetsInsert(s: State, j: nat, creator: nat, pid: nat, url: string)
    requires Inv(s) && creator in s.processes && pid in s.processes && pid != creator
    requires Creating(s, j, creator, s.processes[pid].user, url)
    ensures CanInsert(Next(s, Abort(creator)), pid, url)
  {
    var t := Next(s, Abort(creator));
    var user := s.processes[pid].user;
    StepKeepsInv(s, Abort(creator));
    InsertOutcome(t, pid, url);
    if Taken(t, user, url) {
      var i :| i in t.jobs && Keyed(t.jobs[i], user, url);
      RollbackKeepsJobs(s, creator, i);
      TakenOnce(s, i, j, user, url);
    }
  }

  lemma StepKeepsPresent(s: State, step: Step, j: nat, user: nat, url: string)
    requires Inv(s) && Present(s, j, user, url) && !(step.Delete? && step.job == j)
    ensures Present(Next(s, step), j, user, url)
  {
    if Enabled(s, step) && (step.Abort? || step.InsertRaises?) {
      assert Next(s, step) == RolledBack(s, step.pid);
      RollbackKeepsPresent(s, step.pid, j, user, url);
    }
  }

  lemma RollbackKeepsPresent(s: State, pid: nat, j: nat, user: nat, url: string)
    requires Inv(s) && Present(s, j, user, url)
    ensures Present(RolledBack(s, pid), j, user, url)
  {
    RollbackKeepsJobs(s, pid, j);
  }

  lemma {:induction false} RunKeepsPresent(s: State, steps: seq<Step>, j: nat, user: nat, url: string)
    requires Inv(s) && Present(s, j, user, url)
    requires forall k | 0 <= k < |steps| :: !(steps[k].Delete? && steps[k].job == j)
    ensures Present(After(s, steps), j, user, url)
  {
    if steps != [] {
      var front := steps[..|steps| - 1];
      RunKeepsPresent(s, front, j, user, url);
      RunKeepsInv(s, front);
      StepKeepsPresent(After(s, front), steps[|steps| - 1], j, user, url);
    }
  }

  /** If it commits, every later insert of the same user and URL raises until the row is
      deleted, and rolls back all that its transaction has done. */
  lemma CommitMakesOthersRaise(s: State, j: nat, creator: nat, user: nat, url: string, steps: seq<Step>, pid: nat)
    requires Inv(s) && creator in s.processes && Creating(s, j, creator, user, url)
    requires forall k | 0 <= k < |steps| :: !(steps[k].Delete? && steps[k].job == j)
    requires var t := After(Next(s, Commit(creator)), steps);
      pid in t.processes && t.processes[pid].user == user
    ensures var t := After(Next(s, Commit(creator)), steps);
      Raises(t, pid, url) && Next(t, InsertRaises(pid, url)) == Next(t, Abort(pid))
  {
    var t := Next(s, Commit(creator));
    StepKeepsInv(s, Commit(creator));
    CommittedIsPresent(s, j, creator, user, url);
    RunKeepsPresent(t, steps, j, user, url);
    RunKeepsInv(t, steps);
    PresentRaises(After(t, steps), j, user, url, pid);
  }

  lemma CommittedIsPresent(s: State, j: nat, creator: nat, user: nat, url: string)
    requires creator in s.processes && Creating(s, j, creator, user, url)
    ensures Present(Next(s, Commit(creator)), j, user, url)
  {
  }

  lemma PresentRaises(s: State, j: nat, user: nat, url: string, pid: nat)
    requires Inv(s) && Present(s, j, user, url) && pid in s.processes && s.processes[pid].user == user
    ensures Raises(s, pid, url) && Next(s, InsertRaises(pid, url)) == Next(s, Abort(pid))
  {
    OnlyRowFound(s, pid, j, user, url);
  }

  /** The race itself: two transactions of one user both find no row. Whichever inserts first,
      the other waits, and then raises or inserts as the first commits or rolls back. */
  lemma LoserDependsOnWinner(s: State, winner: nat, loser: nat, url: string, j: nat)
    requires Inv(s) && winner in s.processes && loser in s.processes && winner != loser
    requires s.processes[winner].user == s.processes[loser].user
    requires Enabled(s, InsertJob(winner, url, j))
    ensures !FindsJob(s, winner, s.processes[winner].user, url) && !FindsJob(s, loser, s.processes[loser].user, url)
    ensures var t := Next(s, InsertJob(winner, url, j));
      && Waits(t, loser, url)
      && Raises(Next(t, Commit(winner)), loser, url)
      && loser !in Next(Next(t, Commit(winner)), InsertRaises(loser, url)).processes
      && CanInsert(Next(t, Abort(winner)), loser, url)
  {
    var user, first := s.processes[winner].user, InsertJob(winner, url, j);
    NoneFound(s, winner, url);
    NoneFound(s, loser, url);
    StepKeepsInv(s, first);
    EndDecides(Next(s, first), winner, loser, user, url, j);
  }

  lemma EndDecides(t: State, winner: nat, loser: nat, user: nat, url: string, j: nat)
    requires Inv(t) && winner in t.processes && loser in t.processes && winner != loser
    requires t.processes[loser].user == user && Creating(t, j, winner, user, url)
    ensures Waits(t, loser, url)
    ensures Raises(Next(t, Commit(winner)), loser, url)
    ensures loser !in Next(Next(t, Commit(winner)), InsertRaises(loser, url)).processes
    ensures CanInsert(Next(t, Abort(winner)), loser, url)
  {
    InsertOutcome(t, loser, url);
    StepKeepsInv(t, Commit(winner));
    CommittedIsPresent(t, j, winner, user, url);
    PresentRaises(Next(t, Commit(winner)), j, user, url, loser);
    AbortLetsInsert(t, j, winner, loser, url);
  }

  lemma NoneFound(s: State, pid: nat, url: string)
    requires Inv(s) && pid in s.processes && !Taken(s, s.processes[pid].user, url)
    ensures !FindsJob(s, pid, s.processes[pid].user, url)
  {
    if FindsJob(s, pid, s.processes[pid].user, url) {
      FindsTaken(s, pid, s.processes[pid].user, url);
    }
  }
}
