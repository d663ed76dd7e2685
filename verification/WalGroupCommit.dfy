/** Group commit (pkg/storage/wal.go:362-440, 500-507) as a protocol of appender threads. Writing
    happens under the log's mutex, syncing under a flag guarded by its own mutex; each critical
    section is one step. Records are numbered in the order they are written. */
module WalGroupCommit {
  type Thread = nat

  /** Where an appender is. A batch's sequence number is `ticket`. */
  datatype Phase =
    | Idle
    | Writing(left: nat)
    | Checking(ticket: nat)
    | Sleeping(ticket: nat)
    | Claimed(ticket: nat, target: nat)
    | Picked(ticket: nat, target: nat, segment: nat)
    | Flushing(ticket: nat, target: nat, segment: nat, upTo: nat)
    | Flushed(ticket: nat, target: nat, ok: bool)
    | Returned(ticket: nat, ok: bool)

  /** `written` records exist, the current one of `segment` + 1 segments starts at record `start`, and
      everything below `durable` survives a crash. `ends[q - 1]` is where batch q ends. */
  datatype Sys = Sys(written: nat, segment: nat, start: nat, durable: nat, writeSeq: nat, ends: seq<nat>,
                     syncedSeq: nat, syncing: bool, threads: map<Thread, Phase>)

  const START := Sys(0, 0, 0, 0, 0, [], 0, false, map[])

  datatype Step =
    | Begin(t: Thread, count: nat)
    | Write(t: Thread, rotate: bool)
    | FailWrite(t: Thread, wrote: bool)
    | Check(t: Thread)
    | Pick(t: Thread)
    | Flush(t: Thread)
    | FailFlush(t: Thread)
    | Complete(t: Thread, ok: bool)
    | Publish(t: Thread)

  function At(s: Sys, t: Thread): Phase {
    if t in s.threads then s.threads[t] else Idle
  }

  predicate Locked(s: Sys) {
    exists t :: t in s.threads && s.threads[t].Writing?
  }

  predicate Enabled(s: Sys, a: Step) {
    match a
    case Begin(t, count) => (At(s, t).Idle? || At(s, t).Returned?) && count > 0 && !Locked(s)
    case Write(t, _) => At(s, t).Writing? && At(s, t).left > 0
    case FailWrite(t, _) => At(s, t).Writing?
    case Check(t) => At(s, t).Checking?
    case Pick(t) => At(s, t).Claimed? && !Locked(s)
    case Flush(t) => At(s, t).Picked?
    case FailFlush(t) => At(s, t).Claimed?
    case Complete(t, _) => At(s, t).Flushing?
    case Publish(t) => At(s, t).Flushed?
  }

  function Moved(s: Sys, t: Thread, p: Phase): Sys {
    s.(threads := s.threads[t := p])
  }

  /** One record into the current segment. Rotating syncs the segment before leaving it; the batch
      gets its sequence number once its last record is written. */
  function Wrote(s: Sys, t: Thread, left: nat, rotate: bool): Sys {
    var w := s.(written := s.written + 1);
    var r := if rotate then w.(segment := w.segment + 1, start := w.written, durable := w.written) else w;
    if left > 0 then Moved(r, t, Writing(left))
    else Moved(r.(writeSeq := r.writeSeq + 1, ends := r.ends + [r.written]), t, Checking(r.writeSeq + 1))
  }

  function Woken(p: Phase): Phase {
    if p.Sleeping? then Checking(p.ticket) else p
  }

  /** The end of groupSync: record what the sync covered, clear the flag, wake everybody. */
  function Published(s: Sys, t: Thread, p: Phase): Sys
    requires p.Flushed?
  {
    s.(syncedSeq := if p.ok && p.target > s.syncedSeq then p.target else s.syncedSeq, syncing := false,
       threads := (map o | o in s.threads :: Woken(s.threads[o]))[t := Returned(p.ticket, p.ok)])
  }

  function Act(s: Sys, a: Step): Sys
    requires Enabled(s, a)
  {
    match a
    case Begin(t, count) => Moved(s, t, Writing(count))
    case Write(t, rotate) => Wrote(s, t, At(s, t).left - 1, rotate)
    case FailWrite(t, wrote) =>
      Moved(if wrote then s.(written := s.written + 1) else s, t, Returned(0, false))
    case Check(t) =>
      var q := At(s, t).ticket;
      if s.syncedSeq >= q then Moved(s, t, Returned(q, true))
      else if s.syncing then Moved(s, t, Sleeping(q))
      else Moved(s, t, Claimed(q, s.writeSeq)).(syncing := true)
    case Pick(t) => Moved(s, t, Picked(At(s, t).ticket, At(s, t).target, s.segment))
    case Flush(t) =>
      var p := At(s, t);
      Moved(s, t, Flushing(p.ticket, p.target, p.segment, if p.segment == s.segment then s.written else s.start))
    case FailFlush(t) => Moved(s, t, Flushed(At(s, t).ticket, At(s, t).target, false))
    case Complete(t, ok) =>
      var p := At(s, t);
      var d := if ok && p.segment == s.segment && p.upTo > s.durable then s.(durable := p.upTo) else s;
      Moved(d, t, Flushed(p.ticket, p.target, ok))
    case Publish(t) => Published(s, t, At(s, t))
  }

  // ---------------------------------------------------------------------------
  // Invariant

  /** Batch q is wholly written. */
  ghost predicate Batch(s: Sys, q: nat) {
    1 <= q <= |s.ends|
  }

  ghost predicate DurableTo(s: Sys, q: nat) {
    q == 0 || (Batch(s, q) && s.ends[q - 1] <= s.durable)
  }

  predicate Syncer(p: Phase) {
    p.Claimed? || p.Picked? || p.Flushing? || p.Flushed?
  }

  ghost predicate Counters(s: Sys) {
    && |s.ends| == s.writeSeq && s.syncedSeq <= s.writeSeq
    && s.start <= s.durable <= s.written
    && (forall i :: 0 <= i < |s.ends| ==> s.ends[i] <= s.written)
    && (forall i, j :: 0 <= i <= j < |s.ends| ==> s.ends[i] <= s.ends[j])
    && DurableTo(s, s.syncedSeq)
  }

  /** What a syncing thread has achieved so far for its target. */
  ghost predicate Covers(s: Sys, p: Phase) {
    match p
    case Picked(_, target, seg) => Batch(s, target) && seg <= s.segment && (seg < s.segment ==> s.ends[target - 1] <= s.start)
    case Flushing(_, target, seg, upTo) =>
      && Batch(s, target) && seg <= s.segment && upTo <= s.written
      && (if seg < s.segment then s.ends[target - 1] <= s.start else s.ends[target - 1] <= upTo)
    case Flushed(_, target, ok) => Batch(s, target) && (ok ==> s.ends[target - 1] <= s.durable)
    case Claimed(_, target) => Batch(s, target)
    case _ => true
  }

  ghost predicate ThreadOk(s: Sys, p: Phase) {
    && (p.Checking? || p.Sleeping? ==> Batch(s, p.ticket))
    && (Syncer(p) ==> s.syncing && Batch(s, p.ticket) && p.ticket <= p.target && Covers(s, p))
    && (p.Sleeping? ==> s.syncing)
    && (p.Returned? && p.ok ==> Batch(s, p.ticket) && s.ends[p.ticket - 1] <= s.durable)
  }

  ghost predicate OneSyncer(s: Sys) {
    && (forall t, o :: t in s.threads && o in s.threads && Syncer(s.threads[t]) && Syncer(s.threads[o]) ==> t == o)
    && (s.syncing ==> exists t :: t in s.threads && Syncer(s.threads[t]))
  }

  ghost predicate Inv(s: Sys) {
    && Counters(s) && OneSyncer(s)
    && (forall t :: t in s.threads ==> ThreadOk(s, s.threads[t]))
    && (forall t, o :: t in s.threads && o in s.threads && s.threads[t].Writing? && s.threads[o].Writing? ==> t == o)
  }

  // ---------------------------------------------------------------------------
  // Every step keeps it

  /** Progress that no other thread can object to. */
  ghost predicate Grows(s: Sys, s': Sys) {
    && s.ends <= s'.ends && s.durable <= s'.durable && s.written <= s'.written
    && ((s.segment == s'.segment && s.start == s'.start) || (s.segment < s'.segment && s.written <= s'.start))
    && s.syncing == s'.syncing
  }

  lemma PhasePersists(s: Sys, s': Sys, p: Phase)
    requires Counters(s) && ThreadOk(s, p) && Grows(s, s')
    ensures ThreadOk(s', p)
  {
  }

  /** One thread moves on, and nobody else's phase changes. */
  lemma MoveInv(s: Sys, s': Sys, t: Thread, p: Phase)
    requires Inv(s) && Grows(s, s') && Counters(s')
    requires s'.threads == s.threads[t := p] && ThreadOk(s', p) && (Syncer(p) <==> Syncer(At(s, t)))
    requires p.Writing? ==> At(s, t).Writing? || !Locked(s)
    ensures Inv(s')
  {
    forall o | o in s'.threads ensures ThreadOk(s', s'.threads[o]) {
      if o != t {
        PhasePersists(s, s', s.threads[o]);
      }
    }
    if s'.syncing {
      var o :| o in s.threads && Syncer(s.threads[o]);
      assert o in s'.threads && Syncer(s'.threads[o]);
    }
  }

  lemma WroteGrows(s: Sys, t: Thread, left: nat, rotate: bool)
    requires Counters(s)
    ensures var s' := Wrote(s, t, left, rotate);
            && Grows(s, s') && Counters(s') && s'.syncing == s.syncing
            && s'.threads == s.threads[t := if left > 0 then Writing(left) else Checking(s.writeSeq + 1)]
            && (left == 0 ==> Batch(s', s.writeSeq + 1))
  {
    var s' := Wrote(s, t, left, rotate);
    assert s.ends <= s'.ends;
    assert s.syncedSeq > 0 ==> s'.ends[s.syncedSeq - 1] == s.ends[s.syncedSeq - 1];
  }

  lemma WriteInv(s: Sys, t: Thread, rotate: bool)
    requires Inv(s) && Enabled(s, Write(t, rotate))
    ensures Inv(Wrote(s, t, At(s, t).left - 1, rotate))
  {
    var left := At(s, t).left - 1;
    WroteGrows(s, t, left, rotate);
    MoveInv(s, Wrote(s, t, left, rotate), t, if left > 0 then Writing(left) else Checking(s.writeSeq + 1));
  }

  lemma BeginInv(s: Sys, t: Thread, count: nat)
    requires Inv(s) && Enabled(s, Begin(t, count))
    ensures Inv(Act(s, Begin(t, count)))
  {
    MoveInv(s, Act(s, Begin(t, count)), t, Writing(count));
  }

  lemma FailWriteInv(s: Sys, t: Thread, wrote: bool)
    requires Inv(s) && Enabled(s, FailWrite(t, wrote))
    ensures Inv(Act(s, FailWrite(t, wrote)))
  {
    MoveInv(s, Act(s, FailWrite(t, wrote)), t, Returned(0, false));
  }

  lemma CheckInv(s: Sys, t: Thread)
    requires Inv(s) && Enabled(s, Check(t))
    ensures Inv(Act(s, Check(t)))
  {
    var s', q := Act(s, Check(t)), At(s, t).ticket;
    assert ThreadOk(s, s.threads[t]);
    if s.syncedSeq >= q || s.syncing {
      MoveInv(s, s', t, s'.threads[t]);
    } else {
      ClaimInv(s, t, q);
    }
  }

  /** With the flag down there is no syncer, so taking it makes the only one. */
  lemma ClaimInv(s: Sys, t: Thread, q: nat)
    requires Inv(s) && t in s.threads && s.threads[t] == Checking(q) && !s.syncing
    ensures Inv(Moved(s, t, Claimed(q, s.writeSeq)).(syncing := true))
  {
    var s' := Moved(s, t, Claimed(q, s.writeSeq)).(syncing := true);
    assert ThreadOk(s, s.threads[t]);
    forall o | o in s'.threads ensures ThreadOk(s', s'.threads[o]) && (o != t ==> !Syncer(s'.threads[o])) {
      if o != t {
        assert ThreadOk(s, s.threads[o]);
      }
    }
    assert t in s'.threads && Syncer(s'.threads[t]);
  }

  lemma StageInv(s: Sys, s': Sys, t: Thread, p: Phase)
    requires Inv(s) && t in s.threads && Syncer(s.threads[t]) && Syncer(p) && s' == Moved(s.(durable := s'.durable), t, p)
    requires s.durable <= s'.durable <= s.written && ThreadOk(s', p)
    ensures Inv(s')
  {
    MoveInv(s, s', t, p);
  }

  lemma PublishInv(s: Sys, t: Thread)
    requires Inv(s) && Enabled(s, Publish(t))
    ensures Inv(Act(s, Publish(t)))
  {
    var s', p := Act(s, Publish(t)), s.threads[t];
    assert ThreadOk(s, p);
    forall o | o in s'.threads ensures ThreadOk(s', s'.threads[o]) && !Syncer(s'.threads[o]) {
      assert ThreadOk(s, s.threads[o]);
      if o != t {
        assert !Syncer(s.threads[o]);
      }
    }
  }

  lemma SyncStepInv(s: Sys, a: Step)
    requires Inv(s) && Enabled(s, a) && (a.Pick? || a.Flush? || a.FailFlush? || a.Complete?)
    ensures Inv(Act(s, a))
  {
    var s' := Act(s, a);
    assert ThreadOk(s, s.threads[a.t]);
    match a
    case Pick(t) => StageInv(s, s', t, s'.threads[t]);
    case Flush(t) => StageInv(s, s', t, s'.threads[t]);
    case FailFlush(t) => StageInv(s, s', t, s'.threads[t]);
    case Complete(t, _) => StageInv(s, s', t, s'.threads[t]);
  }

  lemma StepInv(s: Sys, a: Step)
    requires Inv(s) && Enabled(s, a)
    ensures Inv(Act(s, a))
  {
    match a
    case Begin(t, count) => BeginInv(s, t, count);
    case Write(t, rotate) => WriteInv(s, t, rotate);
    case FailWrite(t, wrote) => FailWriteInv(s, t, wrote);
    case Check(t) => CheckInv(s, t);
    case Publish(t) => PublishInv(s, t);
    case _ => SyncStepInv(s, a);
  }

  // ---------------------------------------------------------------------------
  // Runs

  ghost predicate IsRun(run: seq<Sys>, acts: seq<Step>) {
    && |run| == |acts| + 1 && run[0] == START
    && forall k :: 0 <= k < |acts| ==> Enabled(run[k], acts[k]) && run[k + 1] == Act(run[k], acts[k])
  }

  lemma {:induction false} RunInv(run: seq<Sys>, acts: seq<Step>, k: nat)
    requires IsRun(run, acts) && k < |run|
    ensures Inv(run[k])
    decreases k
  {
    if k > 0 {
      RunInv(run, acts, k - 1);
      StepInv(run[k - 1], acts[k - 1]);
    }
  }

  /** An append returns success only once its whole batch is durable, over every interleaving of
      appenders, rotations and failing syncs. */
  lemma AcknowledgedIsDurable(run: seq<Sys>, acts: seq<Step>, k: nat, t: Thread)
    requires IsRun(run, acts) && k < |run| && t in run[k].threads
    requires run[k].threads[t].Returned? && run[k].threads[t].ok
    ensures var q := run[k].threads[t].ticket;
            1 <= q <= |run[k].ends| && run[k].ends[q - 1] <= run[k].durable <= run[k].written
  {
    RunInv(run, acts, k);
    assert ThreadOk(run[k], run[k].threads[t]);
  }

  /** At most one group fsync runs at a time. */
  lemma OneSyncAtATime(run: seq<Sys>, acts: seq<Step>, k: nat, t: Thread, o: Thread)
    requires IsRun(run, acts) && k < |run| && t in run[k].threads && o in run[k].threads
    requires Syncer(run[k].threads[t]) && Syncer(run[k].threads[o])
    ensures t == o
  {
    RunInv(run, acts, k);
  }

  /** No appender sleeps unless a thread is on its way to waking it. */
  lemma NoLostWakeup(run: seq<Sys>, acts: seq<Step>, k: nat, t: Thread)
    requires IsRun(run, acts) && k < |run| && t in run[k].threads && run[k].threads[t].Sleeping?
    ensures run[k].syncing && exists o :: o in run[k].threads && Syncer(run[k].threads[o])
  {
    RunInv(run, acts, k);
    assert ThreadOk(run[k], run[k].threads[t]);
  }

  lemma StepDurable(s: Sys, a: Step)
    requires Counters(s) && Enabled(s, a)
    ensures s.durable <= Act(s, a).durable && s.ends <= Act(s, a).ends
  {
  }

  /** What was durable once stays so. */
  lemma {:induction false} DurableGrows(run: seq<Sys>, acts: seq<Step>, j: nat, k: nat)
    requires IsRun(run, acts) && j <= k < |run|
    ensures run[j].durable <= run[k].durable && run[j].ends <= run[k].ends
    decreases k
  {
    if j < k {
      DurableGrows(run, acts, j, k - 1);
      RunInv(run, acts, k - 1);
      StepDurable(run[k - 1], acts[k - 1]);
    }
  }

  // ---------------------------------------------------------------------------
  // Progress

  /** The step is no failure of the disk. */
  predicate Smooth(a: Step) {
    !a.FailWrite? && !a.FailFlush? && (a.Complete? ==> a.ok)
  }

  /** A writer has records left, and nobody has been told of a failure. */
  ghost predicate Clean(p: Phase) {
    && (p.Writing? ==> p.left > 0)
    && (p.Flushed? ==> p.ok) && (p.Returned? ==> p.ok)
  }

  ghost predicate AllClean(s: Sys) {
    forall t :: t in s.threads ==> Clean(s.threads[t])
  }

  lemma StepClean(s: Sys, a: Step)
    requires AllClean(s) && Enabled(s, a) && Smooth(a)
    ensures AllClean(Act(s, a))
  {
  }

  lemma {:induction false} RunClean(run: seq<Sys>, acts: seq<Step>, k: nat)
    requires IsRun(run, acts) && k < |run| && forall i :: 0 <= i < k ==> Smooth(acts[i])
    ensures AllClean(run[k])
    decreases k
  {
    if k > 0 {
      RunClean(run, acts, k - 1);
      StepClean(run[k - 1], acts[k - 1]);
    }
  }

  /** As long as the disk does not fail, no append does: whatever has returned by then returned success,
      with its whole batch durable. */
  lemma EveryAppendSucceeds(run: seq<Sys>, acts: seq<Step>, k: nat, t: Thread)
    requires IsRun(run, acts) && k < |run| && (forall i :: 0 <= i < k ==> Smooth(acts[i]))
    requires t in run[k].threads && run[k].threads[t].Returned?
    ensures var p := run[k].threads[t];
            p.ok && 1 <= p.ticket <= |run[k].ends| && run[k].ends[p.ticket - 1] <= run[k].durable
  {
    RunClean(run, acts, k);
    assert Clean(run[k].threads[t]);
    AcknowledgedIsDurable(run, acts, k, t);
  }

  ghost predicate WritersHaveWork(s: Sys) {
    forall t :: t in s.threads && s.threads[t].Writing? ==> s.threads[t].left > 0
  }

  lemma StepHasWork(s: Sys, a: Step)
    requires WritersHaveWork(s) && Enabled(s, a)
    ensures WritersHaveWork(Act(s, a))
  {
  }

  lemma {:induction false} RunHasWork(run: seq<Sys>, acts: seq<Step>, k: nat)
    requires IsRun(run, acts) && k < |run|
    ensures WritersHaveWork(run[k])
    decreases k
  {
    if k > 0 {
      RunHasWork(run, acts, k - 1);
      StepHasWork(run[k - 1], acts[k - 1]);
    }
  }

  /** The step with which an appender that is neither writing nor asleep goes on. */
  function NextStep(t: Thread, p: Phase): Step {
    match p
    case Claimed(_, _) => Pick(t)
    case Picked(_, _, _) => Flush(t)
    case Flushing(_, _, _, _) => Complete(t, true)
    case Flushed(_, _, _) => Publish(t)
    case _ => Check(t)
  }

  /** While any append is under way, one of them can go on without a failure: there is no deadlock between
      the log's mutex, the sync flag and the sleepers. */
  lemma NoDeadlock(run: seq<Sys>, acts: seq<Step>, k: nat, t: Thread) returns (a: Step)
    requires IsRun(run, acts) && k < |run| && t in run[k].threads
    requires !run[k].threads[t].Idle? && !run[k].threads[t].Returned?
    ensures Enabled(run[k], a) && Smooth(a) && !a.Begin?
  {
    var s := run[k];
    if Locked(s) {
      RunHasWork(run, acts, k);
      var w :| w in s.threads && s.threads[w].Writing?;
      a := Write(w, false);
    } else if s.threads[t].Sleeping? {
      NoLostWakeup(run, acts, k, t);
      var o :| o in s.threads && Syncer(s.threads[o]);
      a := NextStep(o, s.threads[o]);
    } else {
      a := NextStep(t, s.threads[t]);
    }
  }
}
