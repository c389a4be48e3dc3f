/** Many users extracting and refreshing at once. The steps are the repository calls of open
    transactions, in any order and any interleaving. What a transaction has written is
    visible to itself only until it commits; the rows it wrote are locked, and an abort puts
    them back. */
module SnapshotProtocol {
  import opened Wrappers
  import opened SnapshotStore

  /** A locked job: who wrote it, and what it was before (nothing, if it is being created). */
  datatype Undo = Undo(pid: nat, before: Option<Job>)

  /** An open transaction: its user, the snapshot it found or stored, the job it found. */
  datatype Process = Process(user: nat, held: Option<(nat, Hash)>, job: Option<nat>)

  /** `owner` maps each uncommitted snapshot to its transaction. */
  datatype State = State(
    snapshots: map<nat, Snapshot>, owner: map<nat, nat>,
    jobs: map<nat, Job>, undo: map<nat, Undo>,
    processes: map<nat, Process>, now: Time)

  datatype Step =
    | Start(pid: nat, user: nat)
    | FindBySourceUrl(pid: nat, url: string, id: nat)
    | Upsert(pid: nat, hash: Hash, payload: Payload, id: nat)
    | FindJob(pid: nat, url: string, job: nat)
    | InsertJob(pid: nat, url: string, job: nat)
    | InsertRaises(pid: nat, url: string)
    | Apply(pid: nat)
    | Mark(pid: nat, state: Freshness)
    | Touch(pid: nat)
    | Delete(user: nat, job: nat)
    | Commit(pid: nat)
    | Abort(pid: nat)
    | Tick(to: Time)

  // -------------------------------------------------------------------- visibility

  predicate Sees(s: State, pid: nat, id: nat) {
    id in s.snapshots && (id in s.owner ==> s.owner[id] == pid)
  }

  /** The version of a job that a transaction reads. */
  function JobSeen(s: State, pid: nat, job: nat): Option<Job> {
    if job in s.undo && s.undo[job].pid != pid then s.undo[job].before
    else if job in s.jobs then Some(s.jobs[job]) else None
  }

  predicate Free(s: State, pid: nat, job: nat) {
    job in s.undo ==> s.undo[job].pid == pid
  }

  function Write(s: State, pid: nat, job: nat, row: Job): State
    requires job in s.jobs
  {
    s.(jobs := s.jobs[job := row],
       undo := if job in s.undo then s.undo else s.undo[job := Undo(pid, Some(s.jobs[job]))])
  }

  predicate Keyed(row: Job, user: nat, url: string) {
    row.user == user && row.url == url
  }

  /** The user has a row for the URL, committed or not. */
  predicate Taken(s: State, user: nat, url: string) {
    exists j :: j in s.jobs && Keyed(s.jobs[j], user, url)
  }

  ghost predicate FindsJob(s: State, pid: nat, user: nat, url: string) {
    exists j :: JobSeen(s, pid, j).Some? && Keyed(JobSeen(s, pid, j).value, user, url)
  }

  // --------------------------------------------------------------------- the steps

  /** When a step can be taken; otherwise it waits, or does not arise. */
  ghost predicate Enabled(s: State, step: Step) {
    match step
    case Start(pid, _) => pid !in s.processes
    case FindBySourceUrl(pid, url, id) =>
      && pid in s.processes && Sees(s, pid, id) && s.snapshots[id].payload.sourceUrl == url
      && (forall k :: Sees(s, pid, k) && s.snapshots[k].payload.sourceUrl == url ==>
            s.snapshots[k].captured <= s.snapshots[id].captured)
    case Upsert(pid, hash, _, id) =>
      pid in s.processes && (if KnownHash(s.snapshots, hash)
                             then Sees(s, pid, id) && s.snapshots[id].hash == hash
                             else id !in s.snapshots)
    case FindJob(pid, url, job) =>
      && pid in s.processes
      && JobSeen(s, pid, job).Some?
      && Keyed(JobSeen(s, pid, job).value, s.processes[pid].user, url)
    case InsertJob(pid, url, job) =>
      pid in s.processes && job !in s.jobs && job !in s.undo && !Taken(s, s.processes[pid].user, url)
    case InsertRaises(pid, url) => pid in s.processes && FindsJob(s, pid, s.processes[pid].user, url)
    case Apply(pid) =>
      pid in s.processes && s.processes[pid].held.Some? && s.processes[pid].job.Some?
      && s.processes[pid].job.value in s.jobs && Free(s, pid, s.processes[pid].job.value)
    case Mark(pid, _) =>
      pid in s.processes && s.processes[pid].job.Some?
      && s.processes[pid].job.value in s.jobs && Free(s, pid, s.processes[pid].job.value)
    case Touch(pid) =>
      pid in s.processes && s.processes[pid].job.Some?
      && s.processes[pid].job.value in s.jobs && Free(s, pid, s.processes[pid].job.value)
    case Delete(user, job) => job in s.jobs && s.jobs[job].user == user && job !in s.undo
    case Commit(pid) => pid in s.processes
    case Abort(pid) => pid in s.processes
    case Tick(to) => s.now <= to
  }

  function Holding(s: State, pid: nat, id: nat, hash: Hash): State
    requires pid in s.processes
  {
    s.(processes := s.processes[pid := s.processes[pid].(held := Some((id, hash)))])
  }

  /** The transactions of others. */
  function OwnedByOthers(owner: map<nat, nat>, pid: nat): map<nat, nat> {
    map id | id in owner && owner[id] != pid :: owner[id]
  }

  function UndoOfOthers(undo: map<nat, Undo>, pid: nat): map<nat, Undo> {
    map job | job in undo && undo[job].pid != pid :: undo[job]
  }

  /** The snapshots left when one transaction's inserts are rolled back. */
  function SnapshotsWithout(s: State, pid: nat): map<nat, Snapshot> {
    map id | id in s.snapshots && !(id in s.owner && s.owner[id] == pid) :: s.snapshots[id]
  }

  predicate Mine(s: State, pid: nat, job: nat) {
    job in s.undo && s.undo[job].pid == pid
  }

  /** The jobs left when one transaction's writes are rolled back. */
  function JobsWithout(s: State, pid: nat): map<nat, Job> {
    map job | job in s.jobs && (Mine(s, pid, job) ==> s.undo[job].before.Some?)
      :: if Mine(s, pid, job) then s.undo[job].before.value else s.jobs[job]
  }

  function Stored(s: State, pid: nat, hash: Hash, payload: Payload, id: nat): State {
    s.(snapshots := s.snapshots[id := Snapshot(hash, payload, s.now)], owner := s.owner[id := pid])
  }

  function Released(s: State, pid: nat): State {
    s.(owner := OwnedByOthers(s.owner, pid), undo := UndoOfOthers(s.undo, pid), processes := s.processes - {pid})
  }

  function RolledBack(s: State, pid: nat): State {
    Released(s, pid).(snapshots := SnapshotsWithout(s, pid), jobs := JobsWithout(s, pid))
  }

  ghost function Next(s: State, step: Step): State {
    if !Enabled(s, step) then s else
    match step
    case Start(pid, user) => s.(processes := s.processes[pid := Process(user, None, None)])
    case FindBySourceUrl(pid, _, id) => Holding(s, pid, id, s.snapshots[id].hash)
    case Upsert(pid, hash, payload, id) =>
      if id in s.snapshots then Holding(s, pid, id, hash)
      else Holding(Stored(s, pid, hash, payload, id), pid, id, hash)
    case FindJob(pid, _, job) => s.(processes := s.processes[pid := s.processes[pid].(job := Some(job))])
    case InsertJob(pid, url, job) =>
      s.(jobs := s.jobs[job := Discovered(s.processes[pid].user, url)],
         undo := s.undo[job := Undo(pid, None)],
         processes := s.processes[pid := s.processes[pid].(job := Some(job))])
    case InsertRaises(pid, _) => RolledBack(s, pid)
    case Apply(pid) =>
      var job, held := s.processes[pid].job.value, s.processes[pid].held.value;
      Write(s, pid, job, Rebound(s.jobs[job], held.0, held.1, s.now))
    case Mark(pid, state) =>
      var job := s.processes[pid].job.value;
      Write(s, pid, job, s.jobs[job].(freshness := state))
    case Touch(pid) =>
      var job := s.processes[pid].job.value;
      Write(s, pid, job, s.jobs[job].(lastFetched := Some(s.now)))
    case Delete(_, job) => s.(jobs := s.jobs - {job})
    case Commit(pid) => Released(s, pid)
    case Abort(pid) => RolledBack(s, pid)
    case Tick(to) => s.(now := to)
  }

  ghost function After(s: State, steps: seq<Step>): State {
    if steps == [] then s else Next(After(s, steps[..|steps| - 1]), steps[|steps| - 1])
  }

  predicate Initial(s: State) {
    s.snapshots == map[] && s.owner == map[] && s.jobs == map[] && s.undo == map[] && s.processes == map[]
  }

  // ------------------------------------------------------------------ the invariant

  /** What a transaction holds is a snapshot it can see, under that snapshot's hash. */
  ghost predicate HeldRight(s: State) {
    forall pid :: pid in s.processes && s.processes[pid].held.Some? ==>
      && Sees(s, pid, s.processes[pid].held.value.0)
      && s.snapshots[s.processes[pid].held.value.0].hash == s.processes[pid].held.value.1
  }

  /** Every job agrees with its snapshot, which is committed or its writer's own. */
  ghost predicate JobsAgree(s: State) {
    forall j :: j in s.jobs ==>
      && Bound(s.jobs[j], s.snapshots)
      && (s.jobs[j].snapshot.Some? && s.jobs[j].snapshot.value in s.owner ==>
            j in s.undo && s.undo[j].pid == s.owner[s.jobs[j].snapshot.value])
  }

  /** So does every version that an abort would restore, and its snapshot is committed. */
  ghost predicate UndoAgrees(s: State) {
    forall j :: j in s.undo ==>
      && j in s.jobs && s.undo[j].pid in s.processes
      && (s.undo[j].before.Some? ==>
            && Bound(s.undo[j].before.value, s.snapshots)
            && s.undo[j].before.value.user == s.jobs[j].user && s.undo[j].before.value.url == s.jobs[j].url
            && (s.undo[j].before.value.snapshot.Some? ==> s.undo[j].before.value.snapshot.value !in s.owner))
  }

  ghost predicate Inv(s: State) {
    && UniqueHashes(s.snapshots) && UniqueUrls(s.jobs)
    && s.owner.Keys <= s.snapshots.Keys
    && HeldRight(s) && JobsAgree(s) && UndoAgrees(s)
  }

  lemma ReadKeepsInv(s: State, step: Step)
    requires Inv(s) && Enabled(s, step)
    requires step.Start? || step.FindBySourceUrl? || step.FindJob? || step.Tick?
    ensures Inv(Next(s, step))
  {
  }

  lemma StoredKeepsJobs(s: State, pid: nat, hash: Hash, payload: Payload, id: nat)
    requires Inv(s) && id !in s.snapshots
    ensures JobsAgree(Stored(s, pid, hash, payload, id))
  {
  }

  lemma StoredKeepsUndo(s: State, pid: nat, hash: Hash, payload: Payload, id: nat)
    requires Inv(s) && id !in s.snapshots
    ensures UndoAgrees(Stored(s, pid, hash, payload, id))
  {
  }

  lemma StoredKeepsInv(s: State, pid: nat, hash: Hash, payload: Payload, id: nat)
    requires Inv(s) && pid in s.processes && id !in s.snapshots && !KnownHash(s.snapshots, hash)
    ensures Inv(Stored(s, pid, hash, payload, id))
  {
    StoredKeepsJobs(s, pid, hash, payload, id);
    StoredKeepsUndo(s, pid, hash, payload, id);
  }

  lemma HoldingKeepsInv(s: State, pid: nat, id: nat, hash: Hash)
    requires Inv(s) && pid in s.processes && Sees(s, pid, id) && s.snapshots[id].hash == hash
    ensures Inv(Holding(s, pid, id, hash))
  {
    var s' := Holding(s, pid, id, hash);
    assert JobsAgree(s');
    assert UndoAgrees(s');
  }

  lemma UpsertKeepsInv(s: State, step: Step)
    requires Inv(s) && Enabled(s, step) && step.Upsert?
    ensures Inv(Next(s, step))
  {
    if step.id !in s.snapshots {
      StoredKeepsInv(s, step.pid, step.hash, step.payload, step.id);
      HoldingKeepsInv(Stored(s, step.pid, step.hash, step.payload, step.id), step.pid, step.id, step.hash);
    } else {
      HoldingKeepsInv(s, step.pid, step.id, step.hash);
    }
  }

  lemma InsertKeepsInv(s: State, step: Step)
    requires Inv(s) && Enabled(s, step) && step.InsertJob?
    ensures Inv(Next(s, step))
  {
  }

  lemma WriteKeepsInv(s: State, pid: nat, job: nat, row: Job)
    requires Inv(s) && pid in s.processes && job in s.jobs && Free(s, pid, job)
    requires row.user == s.jobs[job].user && row.url == s.jobs[job].url && Bound(row, s.snapshots)
    requires row.snapshot.Some? && row.snapshot.value in s.owner ==> s.owner[row.snapshot.value] == pid
    ensures Inv(Write(s, pid, job, row))
  {
    var s' := Write(s, pid, job, row);
    assert JobsAgree(s');
    assert UndoAgrees(s');
    assert UniqueUrls(s'.jobs);
  }

  lemma ReleasedKeepsInv(s: State, pid: nat)
    requires Inv(s)
    ensures Inv(Released(s, pid))
  {
    var s' := Released(s, pid);
    assert HeldRight(s');
    assert JobsAgree(s');
    assert UndoAgrees(s');
  }

  /** No version that survives an abort is bound to a snapshot that does not. */
  lemma RollbackKeepsJobs(s: State, pid: nat, j: nat)
    requires Inv(s) && j in RolledBack(s, pid).jobs
    ensures var s', row := RolledBack(s, pid), RolledBack(s, pid).jobs[j];
      && Bound(row, s'.snapshots)
      && (row.snapshot.Some? && row.snapshot.value in s'.owner ==>
            j in s'.undo && s'.undo[j].pid == s'.owner[row.snapshot.value])
      && j in s.jobs && row.user == s.jobs[j].user && row.url == s.jobs[j].url
  {
    if Mine(s, pid, j) {
      assert RolledBack(s, pid).jobs[j] == s.undo[j].before.value;
    } else {
      assert RolledBack(s, pid).jobs[j] == s.jobs[j];
    }
  }

  lemma RollbackKeepsUndo(s: State, pid: nat)
    requires Inv(s)
    ensures UndoAgrees(RolledBack(s, pid))
  {
    var s' := RolledBack(s, pid);
    forall j | j in s'.undo
      ensures j in s'.jobs && s'.undo[j] == s.undo[j] && s'.jobs[j] == s.jobs[j] && s'.undo[j].pid in s'.processes
      ensures s'.undo[j].before.Some? ==> Bound(s'.undo[j].before.value, s'.snapshots)
    {
      OthersUndoKept(s, pid, j);
    }
  }

  lemma OthersUndoKept(s: State, pid: nat, j: nat)
    requires Inv(s) && j in s.undo && s.undo[j].pid != pid
    ensures var s' := RolledBack(s, pid);
      && j in s'.jobs && j in s'.undo && s'.undo[j] == s.undo[j] && s'.jobs[j] == s.jobs[j] && s'.undo[j].pid in s'.processes
      && (s.undo[j].before.Some? ==> Bound(s.undo[j].before.value, s'.snapshots))
  {
    assert !Mine(s, pid, j);
  }

  lemma RollbackKeepsHeld(s: State, pid: nat)
    requires Inv(s)
    ensures HeldRight(RolledBack(s, pid)) && UniqueHashes(RolledBack(s, pid).snapshots)
  {
  }

  lemma RolledBackKeepsInv(s: State, pid: nat)
    requires Inv(s)
    ensures Inv(RolledBack(s, pid))
  {
    RollbackKeepsUndo(s, pid);
    RollbackKeepsHeld(s, pid);
    forall j | j in RolledBack(s, pid).jobs
      ensures Bound(RolledBack(s, pid).jobs[j], RolledBack(s, pid).snapshots)
      ensures j in s.jobs && RolledBack(s, pid).jobs[j].user == s.jobs[j].user && RolledBack(s, pid).jobs[j].url == s.jobs[j].url
    {
      RollbackKeepsJobs(s, pid, j);
    }
    assert JobsAgree(RolledBack(s, pid)) by {
      forall j | j in RolledBack(s, pid).jobs { RollbackKeepsJobs(s, pid, j); }
    }
  }

  lemma DeleteKeepsInv(s: State, step: Step)
    requires Inv(s) && Enabled(s, step) && step.Delete?
    ensures Inv(Next(s, step))
  {
  }

  lemma StepKeepsInv(s: State, step: Step)
    requires Inv(s)
    ensures Inv(Next(s, step))
  {
    if Enabled(s, step) {
      match step
      case Upsert(_, _, _, _) => UpsertKeepsInv(s, step);
      case InsertJob(_, _, _) => InsertKeepsInv(s, step);
      case Apply(pid) =>
        var job, held := s.processes[pid].job.value, s.processes[pid].held.value;
        WriteKeepsInv(s, pid, job, Rebound(s.jobs[job], held.0, held.1, s.now));
      case Mark(pid, state) =>
        var job := s.processes[pid].job.value;
        WriteKeepsInv(s, pid, job, s.jobs[job].(freshness := state));
      case Touch(pid) =>
        var job := s.processes[pid].job.value;
        WriteKeepsInv(s, pid, job, s.jobs[job].(lastFetched := Some(s.now)));
      case Delete(_, _) => DeleteKeepsInv(s, step);
      case Commit(pid) => ReleasedKeepsInv(s, pid);
      case Abort(pid) => RolledBackKeepsInv(s, pid);
      case InsertRaises(pid, _) => RolledBackKeepsInv(s, pid);
      case _ => ReadKeepsInv(s, step);
    }
  }

  lemma {:induction false} RunKeepsInv(s: State, steps: seq<Step>)
    requires Inv(s)
    ensures Inv(After(s, steps))
  {
    if steps != [] {
      RunKeepsInv(s, steps[..|steps| - 1]);
      StepKeepsInv(After(s, steps[..|steps| - 1]), steps[|steps| - 1]);
    }
  }

  /** What a write leaves for its own transaction to see: the row of its statement, and nothing
      less. */
  lemma WritesTakeEffect(s: State, step: Step)
    requires Enabled(s, step) && (step.InsertJob? || step.Apply? || step.Mark? || step.Touch?)
    ensures var s' := Next(s, step);
      && step.pid in s'.processes && s'.processes[step.pid].job.Some?
      && var job := s'.processes[step.pid].job.value;
         match step
         case InsertJob(pid, url, _) =>
           JobSeen(s', pid, job) == Some(Job(s.processes[pid].user, url, None, None, Fresh, None))
         case Apply(pid) =>
           && s.processes[pid].held.Some? && job in s.jobs
           && var held := s.processes[pid].held.value;
              JobSeen(s', pid, job) ==
                Some(Job(s.jobs[job].user, s.jobs[job].url, Some(held.0), Some(held.1), Fresh, Some(s.now)))
         case Mark(pid, state) => job in s.jobs && JobSeen(s', pid, job) == Some(s.jobs[job].(freshness := state))
         case Touch(pid) => job in s.jobs && JobSeen(s', pid, job) == Some(s.jobs[job].(lastFetched := Some(s.now)))
         case _ => true
  {
  }

  /** The reads: a latest snapshot of the URL that the transaction can see, or its user's job
      for the URL. A deletion takes the job from everybody. */
  lemma ReadsAndDeletes(s: State, step: Step)
    requires Enabled(s, step)
    ensures var s' := Next(s, step);
      match step
      case FindBySourceUrl(pid, url, id) =>
        && s'.processes[pid].held == Some((id, s.snapshots[id].hash))
        && Sees(s, pid, id) && s.snapshots[id].payload.sourceUrl == url
        && forall k :: Sees(s, pid, k) && s.snapshots[k].payload.sourceUrl == url ==>
             s.snapshots[id].captured >= s.snapshots[k].captured
      case FindJob(pid, url, job) =>
        && s'.processes[pid].job == Some(job) && JobSeen(s, pid, job).Some?
        && JobSeen(s, pid, job).value.user == s.processes[pid].user && JobSeen(s, pid, job).value.url == url
      case Delete(user, job) =>
        s.jobs[job].user == user && s'.jobs == s.jobs - {job} && forall pid :: JobSeen(s', pid, job) == None
      case Tick(to) => s'.now == to && to >= s.now
      case _ => true
  {
  }

  /** An upsert of new content stores it as it came, with the time of storing, and holds it. */
  lemma UpsertTakesEffect(s: State, pid: nat, hash: Hash, payload: Payload, id: nat)
    requires Enabled(s, Upsert(pid, hash, payload, id))
    ensures var s' := Next(s, Upsert(pid, hash, payload, id));
      && s'.processes[pid].held == Some((id, hash)) && Sees(s', pid, id) && s'.jobs == s.jobs
      && s'.snapshots == if KnownHash(s.snapshots, hash) then s.snapshots else s.snapshots[id := Snapshot(hash, payload, s.now)]
  {
  }

  // -------------------------------------------------------------------- what follows

  /** In every reachable state, whoever looks at a job sees it agree with a snapshot that
      they can see too, and no two snapshots share a hash. */
  lemma SnapshotAgreement(s: State, steps: seq<Step>, pid: nat, job: nat)
    requires Initial(s)
    ensures var s' := After(s, steps);
      && UniqueHashes(s'.snapshots)
      && (JobSeen(s', pid, job).Some? ==>
           var row := JobSeen(s', pid, job).value;
           Bound(row, s'.snapshots) && (row.snapshot.Some? ==> Sees(s', pid, row.snapshot.value)))
  {
    RunKeepsInv(s, steps);
  }

  predicate Committed(s: State, id: nat) {
    id in s.snapshots && id !in s.owner
  }

  lemma StepKeepsCommitted(s: State, step: Step, id: nat)
    requires Committed(s, id)
    ensures Committed(Next(s, step), id) && Next(s, step).snapshots[id] == s.snapshots[id]
  {
  }

  /** A committed snapshot is never removed and never changes. */
  lemma {:induction false} CommittedForever(s: State, steps: seq<Step>, id: nat)
    requires Committed(s, id)
    ensures Committed(After(s, steps), id)
    ensures After(s, steps).snapshots[id] == s.snapshots[id]
  {
    if steps != [] {
      CommittedForever(s, steps[..|steps| - 1], id);
      StepKeepsCommitted(After(s, steps[..|steps| - 1]), steps[|steps| - 1], id);
    }
  }

  /** However many upserts of one hash there are, they all return the same snapshot, and it
      keeps the payload of the first. */
  lemma UpsertsAgree(s: State, steps: seq<Step>, id: nat, again: Step)
    requires Inv(s) && Committed(s, id)
    requires again.Upsert? && again.hash == s.snapshots[id].hash && Enabled(After(s, steps), again)
    ensures var s' := Next(After(s, steps), again);
      && s'.processes[again.pid].held == Some((id, again.hash))
      && s'.snapshots == After(s, steps).snapshots
      && s'.snapshots[id].payload == s.snapshots[id].payload
  {
    CommittedForever(s, steps, id);
    RunKeepsInv(s, steps);
    assert After(s, steps).snapshots[id].hash == again.hash;
  }

  /** Two transactions storing the same content at the same time: while one insert is
      uncommitted the other waits. */
  lemma OneInserter(s: State, first: Step, second: Step)
    requires Inv(s) && first.Upsert? && second.Upsert? && first.pid != second.pid && first.hash == second.hash
    requires Enabled(s, first) && first.id !in s.snapshots
    ensures !Enabled(Next(s, first), second)
  {
    var s' := Next(s, first);
    StepKeepsInv(s, first);
    assert s'.snapshots[first.id].hash == second.hash && s'.owner[first.id] == first.pid;
    assert KnownHash(s'.snapshots, second.hash);
  }

  /** An abort is invisible: every other transaction sees the same snapshots and the same
      jobs as before it. */
  lemma AbortInvisible(s: State, step: Step, other: nat, id: nat, job: nat)
    requires Inv(s) && Enabled(s, step) && (step.Abort? || step.InsertRaises?) && step.pid != other
    ensures var s' := Next(s, step);
      && Sees(s', other, id) == Sees(s, other, id)
      && (Sees(s, other, id) ==> s'.snapshots[id] == s.snapshots[id])
      && JobSeen(s', other, job) == JobSeen(s, other, job)
  {
    assert Next(s, step) == RolledBack(s, step.pid);
    RollbackKeepsSights(s, step.pid, other, id);
    RollbackKeepsVersions(s, step.pid, other, job);
  }

  lemma RollbackKeepsSights(s: State, pid: nat, other: nat, id: nat)
    requires pid != other
    ensures var s' := RolledBack(s, pid);
      Sees(s', other, id) == Sees(s, other, id) && (Sees(s, other, id) ==> s'.snapshots[id] == s.snapshots[id])
  {
  }

  lemma RollbackKeepsVersions(s: State, pid: nat, other: nat, job: nat)
    requires UndoAgrees(s) && pid != other
    ensures JobSeen(RolledBack(s, pid), other, job) == JobSeen(s, other, job)
  {
  }

  lemma WriteInvisible(s: State, pid: nat, job: nat, row: Job, other: nat, seen: nat)
    requires job in s.jobs && Free(s, pid, job) && pid != other
    ensures JobSeen(Write(s, pid, job, row), other, seen) == JobSeen(s, other, seen)
  {
  }

  lemma StoredInvisible(s: State, step: Step, other: nat, id: nat)
    requires Inv(s) && step.Upsert? && Enabled(s, step) && step.pid != other
    ensures Sees(Next(s, step), other, id) <==> Sees(s, other, id)
  {
  }

  /** So is everything before a commit: a transaction's own writes reach nobody else. */
  lemma WritesInvisible(s: State, step: Step, other: nat, id: nat, job: nat)
    requires Inv(s) && Enabled(s, step)
    requires step.Apply? || step.Mark? || step.Touch? || step.InsertJob? || step.Upsert?
    requires step.pid != other
    ensures JobSeen(Next(s, step), other, job) == JobSeen(s, other, job)
    ensures Sees(Next(s, step), other, id) <==> Sees(s, other, id)
  {
    match step
    case Apply(pid) =>
      var j, held := s.processes[pid].job.value, s.processes[pid].held.value;
      WriteInvisible(s, pid, j, Rebound(s.jobs[j], held.0, held.1, s.now), other, job);
    case Mark(pid, state) =>
      var j := s.processes[pid].job.value;
      WriteInvisible(s, pid, j, s.jobs[j].(freshness := state), other, job);
    case Touch(pid) =>
      var j := s.processes[pid].job.value;
      WriteInvisible(s, pid, j, s.jobs[j].(lastFetched := Some(s.now)), other, job);
    case Upsert(_, _, _, _) => StoredInvisible(s, step, other, id);
    case InsertJob(_, _, _) =>
  }
}
