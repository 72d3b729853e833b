/** The sessions of module Statements always get on: while transactions are open one of them is not waiting,
    and every turn that does not wait brings the end nearer. */
module Progress {
  import opened Domain
  import opened Ledger
  import opened Invariant
  import opened Conservation
  import opened Reserve
  import opened Locks
  import opened Statements
  import opened Sums

  // ---- who waits ------------------------------------------------------------------------------

  /** Another session has locked the row the next statement writes. */
  predicate Blocked(jobs: map<Id, Job>, t: Id)
    requires t in jobs
  {
    var job := jobs[t];
    job.at != Commit && InProgram(Length(job.program), job.at) && Locked(jobs, t, NextLock(job.program, job.at))
  }

  /** What a session has locked belongs to statements it has run. */
  predicate HeldOk(job: Job) {
    && InProgram(Length(job.program), job.at)
    && forall lock :: lock in job.held ==> Taken(job, lock)
  }

  predicate Taken(job: Job, lock: Lock) {
    exists i :: 0 <= i < Index(Length(job.program), job.at) && i < |LocksOf(job.program)| && LocksOf(job.program)[i] == lock
  }

  predicate AllHeldOk(jobs: map<Id, Job>) { forall t :: t in jobs ==> HeldOk(jobs[t]) }

  lemma ExecuteHeld(cfg: Config, db: Db, t: Id, job: Job, job': Job)
    requires HeldOk(job) && job.at != Commit && Execute(cfg, db, t, job) == Some(job')
    ensures HeldOk(job')
  {
    ExecuteAdvances(cfg, db, t, job, job');
    ExecuteHolds(cfg, db, t, job, job');
    AdvancedHeld(job, job');
  }

  lemma AdvancedHeld(job: Job, job': Job)
    requires HeldOk(job) && job.at != Commit && job'.held <= job.held + {NextLock(job.program, job.at)}
    requires job'.program == job.program && job'.at == After(Length(job.program), job.at)
    ensures HeldOk(job')
  {
    StatementsFollowLocks(job.program, job.at);
    forall lock | lock in job'.held ensures Taken(job', lock) {
      if lock in job.held { assert Taken(job, lock); }
    }
  }

  lemma AdvanceHeld(cfg: Config, w: Sessions, t: Id)
    requires AllHeldOk(w.jobs) && t in w.jobs
    ensures AllHeldOk(AdvanceJob(cfg, w, t).jobs)
  {
    var job := w.jobs[t];
    if job.at != Commit && Execute(cfg, w.db, t, job).Some? {
      ExecuteHeld(cfg, w.db, t, job, Execute(cfg, w.db, t, job).value);
    }
  }

  lemma TakeHeld(cfg: Config, base: Base, w: Sessions, turn: Turn)
    requires AllHeldOk(w.jobs)
    ensures AllHeldOk(Take(cfg, base, w, turn).jobs)
  {
    if turn.Advance? && turn.t in w.jobs { AdvanceHeld(cfg, w, turn.t); }
  }

  lemma {:induction false} InterleaveHeld(cfg: Config, base: Base, labels: seq<Turn>)
    ensures AllHeldOk(Interleave(cfg, base, labels).jobs)
  {
    if |labels| > 0 {
      InterleaveHeld(cfg, base, labels[..|labels| - 1]);
      TakeHeld(cfg, base, Interleave(cfg, base, labels[..|labels| - 1]), labels[|labels| - 1]);
    }
  }

  // ---- somebody does not ------------------------------------------------------------------------

  predicate Orderly(layout: Layout, job: Job) { HeldOk(job) && InOrder(layout, LocksOf(job.program)) }

  function NextRank(layout: Layout, job: Job): Rank
    requires HeldOk(job) && job.at != Commit
  {
    RankOf(layout, NextLock(job.program, job.at))
  }

  lemma HeldIsLower(layout: Layout, job: Job, lock: Lock)
    requires Orderly(layout, job) && lock in job.held && job.at != Commit
    ensures Less(RankOf(layout, lock), NextRank(layout, job))
  {
    StatementsFollowLocks(job.program, job.at);
    assert Taken(job, lock);
  }

  lemma {:induction false} HighestNext(layout: Layout, jobs: map<Id, Job>, ts: set<Id>) returns (t: Id)
    requires ts != {} && forall u :: u in ts ==> u in jobs && HeldOk(jobs[u]) && jobs[u].at != Commit
    ensures t in ts && forall u :: u in ts ==> !Less(NextRank(layout, jobs[t]), NextRank(layout, jobs[u]))
    decreases ts
  {
    t :| t in ts;
    if ts != {t} {
      var best := HighestNext(layout, jobs, ts - {t});
      if Less(NextRank(layout, jobs[t]), NextRank(layout, jobs[best])) { t := best; }
    }
  }

  lemma SomeoneIsFree(layout: Layout, jobs: map<Id, Job>) returns (t: Id)
    requires jobs.Keys != {} && forall u :: u in jobs ==> Orderly(layout, jobs[u])
    ensures t in jobs && !Blocked(jobs, t)
  {
    if s :| s in jobs && jobs[s].at == Commit {
      t := s;
    } else {
      t := HighestNext(layout, jobs, jobs.Keys);
      if Blocked(jobs, t) {
        var lock := NextLock(jobs[t].program, jobs[t].at);
        var u :| u in jobs && u != t && lock in jobs[u].held;
        HeldIsLower(layout, jobs[u], lock);
      }
    }
  }

  lemma ListInOrder(cfg: Config, layout: Layout, base: Base, db: Db, id: Id, hs: seq<Hold>)
    requires LayoutFits(layout, base, db.rows) && ListOk(db, id, hs) && RowsOk(cfg, base, db.rows)
    ensures InOrder(layout, ConfirmLocks(id, hs))
  {
    assert Invariant.Ascending(db.rows[id].lines) by { assert EntryOk(cfg, base.pools, id, db.rows[id]); }
    HoldsOfInOrder(layout, base, db.rows, id);
    MoveLocksInOrder(layout, hs);
    RequestRowLast(layout, MoveLocks(hs), RequestLock(id));
  }

  lemma LayoutFitsItself(base: Base, rows: Rows)
    requires KindsUnique(base.pools)
    ensures LayoutFits(LayoutOf(base, rows), base, rows)
  {
  }

  lemma JobInOrder(cfg: Config, layout: Layout, base: Base, db: Db, t: Id, job: Job)
    requires LayoutFits(layout, base, db.rows) && RowsOk(cfg, base, db.rows) && JobOk(base, db, t, job)
    ensures InOrder(layout, LocksOf(job.program))
  {
    if job.program.CreateProgram? {
      CreateInOrder(layout, base, db.rows, job.program.pair, job.program.plan);
    } else {
      ListInOrder(cfg, layout, base, db, job.program.id, job.program.hs);
    }
  }

  lemma FreeSession(cfg: Config, base: Base, w: Sessions) returns (t: Id)
    requires SessionsOk(cfg, base, w) && AllHeldOk(w.jobs) && w.jobs.Keys != {}
    ensures t in w.jobs && !Blocked(w.jobs, t)
  {
    var layout := LayoutOf(base, w.db.rows);
    LayoutFitsItself(base, w.db.rows);
    forall u | u in w.jobs ensures Orderly(layout, w.jobs[u]) {
      assert JobOk(base, w.db, u, w.jobs[u]);
      JobInOrder(cfg, layout, base, w.db, u, w.jobs[u]);
    }
    t := SomeoneIsFree(layout, w.jobs);
  }

  // ---- and every turn that does not wait counts -------------------------------------------------

  function JobLeft(job: Job): int { 2 * Length(job.program) + 2 - Index(Length(job.program), job.at) }

  function JobsLeftMap(jobs: map<Id, Job>): map<Id, int> { map t | t in jobs :: JobLeft(jobs[t]) }

  /** Statements and commits still to come. */
  ghost function JobsLeft(jobs: map<Id, Job>): int { Sum(JobsLeftMap(jobs)) }

  lemma JobLeftIsPositive(job: Job)
    requires HeldOk(job)
    ensures JobLeft(job) > 0
  {
  }

  lemma LeftIsNatural(jobs: map<Id, Job>)
    requires AllHeldOk(jobs)
    ensures JobsLeft(jobs) >= 0
  {
    forall t | t in jobs ensures JobsLeftMap(jobs)[t] >= 0 { JobLeftIsPositive(jobs[t]); }
    SumNonNegative(JobsLeftMap(jobs));
  }

  lemma RemoveLowers(jobs: map<Id, Job>, t: Id)
    requires t in jobs && HeldOk(jobs[t])
    ensures JobsLeft(jobs - {t}) < JobsLeft(jobs)
  {
    JobLeftIsPositive(jobs[t]);
    assert JobsLeftMap(jobs - {t}) == JobsLeftMap(jobs) - {t};
    SumRemove(JobsLeftMap(jobs), t);
  }

  lemma StepLowers(jobs: map<Id, Job>, t: Id, job': Job)
    requires t in jobs && JobLeft(job') < JobLeft(jobs[t])
    ensures JobsLeft(jobs[t := job']) < JobsLeft(jobs)
  {
    assert JobsLeftMap(jobs[t := job']) == JobsLeftMap(jobs)[t := JobLeft(job')];
    SumUpdate(JobsLeftMap(jobs), t, JobLeft(job'));
  }

  /** A turn of a transaction that does not wait runs its statement, commits or rolls back: fewer statements
      are left. */
  lemma FreeTurnLowers(cfg: Config, w: Sessions, t: Id)
    requires AllHeldOk(w.jobs) && t in w.jobs && !Blocked(w.jobs, t)
    ensures 0 <= JobsLeft(AdvanceJob(cfg, w, t).jobs) < JobsLeft(w.jobs)
  {
    var job := w.jobs[t];
    AdvanceHeld(cfg, w, t);
    LeftIsNatural(AdvanceJob(cfg, w, t).jobs);
    if job.at == Commit || Execute(cfg, w.db, t, job).None? {
      RemoveLowers(w.jobs, t);
    } else {
      var job' := Execute(cfg, w.db, t, job).value;
      ExecuteAdvances(cfg, w.db, t, job, job');
      StatementsFollowLocks(job.program, job.at);
      StepLowers(w.jobs, t, job');
    }
  }

  lemma FreeAfter(cfg: Config, base: Base, labels: seq<Turn>) returns (t: Id)
    requires GoodBase(base) && Interleave(cfg, base, labels).jobs != map[]
    ensures t in Interleave(cfg, base, labels).jobs && !Blocked(Interleave(cfg, base, labels).jobs, t)
  {
    InterleaveOk(cfg, base, labels);
    InterleaveHeld(cfg, base, labels);
    assert Interleave(cfg, base, labels).jobs.Keys != {};
    t := FreeSession(cfg, base, Interleave(cfg, base, labels));
  }

  /** No deadlock between statements: after any run that leaves transactions open, one of them does not wait,
      and its turn leaves less to do. */
  lemma SomeoneGetsOn(cfg: Config, base: Base, labels: seq<Turn>) returns (t: Id)
    requires GoodBase(base) && Interleave(cfg, base, labels).jobs != map[]
    ensures t in Interleave(cfg, base, labels).jobs && !Blocked(Interleave(cfg, base, labels).jobs, t)
    ensures 0 <= JobsLeft(Interleave(cfg, base, labels + [Advance(t)]).jobs) < JobsLeft(Interleave(cfg, base, labels).jobs)
  {
    t := FreeAfter(cfg, base, labels);
    InterleaveHeld(cfg, base, labels);
    FreeTurnLowers(cfg, Interleave(cfg, base, labels), t);
    assert (labels + [Advance(t)])[..|labels|] == labels;
  }

  predicate AllAdvances(turns: seq<Turn>) { forall i :: 0 <= i < |turns| ==> turns[i].Advance? }

  /** Whatever statements have run so far, the open transactions can all be brought to their end without any
      new one. */
  lemma {:induction false} EveryRunCanEnd(cfg: Config, base: Base, labels: seq<Turn>) returns (turns: seq<Turn>)
    requires GoodBase(base)
    ensures AllAdvances(turns) && Interleave(cfg, base, labels + turns).jobs == map[]
    decreases JobsLeft(Interleave(cfg, base, labels).jobs)
  {
    if Interleave(cfg, base, labels).jobs == map[] {
      turns := [];
      assert labels + turns == labels;
    } else {
      var t := SomeoneGetsOn(cfg, base, labels);
      var rest := EveryRunCanEnd(cfg, base, labels + [Advance(t)]);
      turns := [Advance(t)] + rest;
      assert labels + turns == labels + [Advance(t)] + rest;
    }
  }

  /** A rejection is inserted at once unless its pair is being inserted by another or taken. */
  lemma RejectionRuns(cfg: Config, base: Base, w: Sessions, t: Id, pair: IdemKey, fp: Fingerprint, plan: seq<Line>, now: Time, reason: Reason)
    requires t !in w.jobs && PlanOk(base.pools, plan) && forall u :: u in w.jobs ==> PairLock(pair) !in w.jobs[u].held
    ensures var op := Rejecting(t, pair, fp, plan, now, reason);
      var w' := Take(cfg, base, w, Turn.Reject(t, pair, fp, plan, now, reason));
      w' == if t !in w.db.rows && pair !in w.db.idem then w.(db := Alone(cfg, w.db, op).0, log := w.log + [op]) else w
  {
  }
}
