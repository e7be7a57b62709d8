/** More of what holds over every run of the delivery protocol: who can block a site, which lease
    renewals succeed, and what a written draft means for later attempts. */
module MaterializationTheorems {
  import opened Wrappers
  import opened TaskModel
  import opened Materializer
  import opened ProposalBundle
  import opened Outbox
  import opened MaterializationProtocol

  // ---- how one step moves the rows ------------------------------------------------------------

  /** The row a step of a process acts on, if it holds a claim. */
  function Held(s: World, pid: int): Option<Mid> {
    if PcOf(s, pid).Idle? then None else Some(PcOf(s, pid).claim.id)
  }

  /** The new version of a row that a process updated under its claim. */
  predicate UpdatedUnder(c: Claim, r: Row, r': Row) {
    && r'.attempt == r.attempt == c.attempt
    && (r'.status == RunningRow ==> r'.expires == Some(r'.updatedAt + c.duration))
  }

  /** The table moved forward, and only the claim's own row, under that claim. */
  ghost predicate Touches(t: Table, t': Table, c: Claim) {
    && t'.Keys == t.Keys && TableForward(t, t')
    && forall m :: m in t && t'[m] != t[m] ==> m == c.id && UpdatedUnder(c, t[m], t'[m])
  }

  lemma HeartbeatTouches(t: Table, c: Claim, now: int)
    requires TableOK(t)
    ensures Touches(t, Heartbeat(t, c.id, c.worker, c.attempt, now, c.duration).0, c)
  {
    HeartbeatIsLegal(t, c.id, c.worker, c.attempt, now, c.duration);
  }

  lemma AcknowledgeTouches(t: Table, c: Claim, now: int, receipt: Receipt)
    requires TableOK(t)
    ensures Touches(t, Acknowledge(t, c.id, c.worker, c.attempt, now, receipt).0, c)
  {
    AcknowledgeIsLegal(t, c.id, c.worker, c.attempt, now, receipt);
  }

  lemma FailTouches(t: Table, c: Claim, now: int, retryAt: int, code: ErrorCode)
    requires TableOK(t)
    ensures Touches(t, Fail(t, c.id, c.worker, c.attempt, now, retryAt, code).0, c)
  {
    FailIsLegal(t, c.id, c.worker, c.attempt, now, retryAt, code);
  }

  /** A step other than a claim or an insert leaves every row but its own claim's alone, and that one
      keeps its attempt. */
  lemma StepTouchesItsRow(s: World, step: Step)
    requires Inv(s) && !step.ClaimStep? && !step.Insert?
    ensures var s' := Next(s, step);
      && s'.rows.Keys == s.rows.Keys && TableForward(s.rows, s'.rows)
      && forall m :: m in s.rows && s'.rows[m] != s.rows[m] ==>
           Held(s, step.pid) == Some(m) && UpdatedUnder(PcOf(s, step.pid).claim, s.rows[m], s'.rows[m])
  {
    var pc := PcOf(s, step.pid);
    Unmoved(s.rows);
    match step
    case BeatStep(pid, now) => if pc.Claimed? || pc.Shaped? { HeartbeatTouches(s.rows, pc.claim, now); }
    case AckStep(pid, now) => if pc.Receipted? { AcknowledgeTouches(s.rows, pc.claim, now, pc.receipt); }
    case FailStep(pid, now, retryAt) => if pc.Failing? { FailTouches(s.rows, pc.claim, now, retryAt, pc.code); }
    case _ =>
  }

  /** Such a step moves only its own process, which keeps its claim or drops it. */
  lemma StepMovesItsProcess(s: World, step: Step, p: int)
    requires !step.ClaimStep? && !step.Insert?
    ensures var pc, pc' := PcOf(s, p), PcOf(Next(s, step), p);
      pc' == pc || pc'.Idle? || (!pc.Idle? && pc'.claim == pc.claim)
  {
  }

  lemma HolderReads(s: World, pid: int)
    requires Inv(s) && Held(s, pid).Some?
    ensures Held(s, pid).value in s.rows && Readable(s.rows[Held(s, pid).value].bundle)
  {
    assert PcOK(s, pid);
    ReadIffReadable(s.rows[Held(s, pid).value].bundle);
  }

  // ---- unreadable bundles ---------------------------------------------------------------------

  predicate Stuck(s: World, m: Mid) {
    m in s.rows && !Readable(s.rows[m].bundle) && s.rows[m].status == PendingRow && s.rows[m].attempt == 0
  }

  lemma ClaimLeavesStuck(s: World, step: Step, m: Mid)
    requires Inv(s) && Stuck(s, m) && step.ClaimStep?
    ensures m in Next(s, step).rows && Next(s, step).rows[m] == s.rows[m]
  {
    var r := Reap(s.rows, step.site, step.now);
    var ms := Candidates(r, step.site, step.now);
    assert r[m] == s.rows[m];
    ReadIffReadable(s.rows[m].bundle);
  }

  /** A row whose bundle cannot be read never moves. */
  lemma StepLeavesStuck(s: World, step: Step, m: Mid)
    requires Inv(s) && Stuck(s, m)
    ensures m in Next(s, step).rows && Next(s, step).rows[m] == s.rows[m]
  {
    if step.ClaimStep? {
      ClaimLeavesStuck(s, step, m);
    } else if !step.Insert? {
      StepTouchesItsRow(s, step);
      if Held(s, step.pid).Some? { HolderReads(s, step.pid); }
    }
  }

  lemma {:induction false} StuckForever(s: World, steps: seq<Step>, m: Mid)
    requires Inv(s) && Valid(steps) && Stuck(s, m)
    ensures m in Run(s, steps).rows && Run(s, steps).rows[m] == s.rows[m]
    decreases |steps|
  {
    if steps != [] {
      StepLeavesStuck(s, steps[0], m);
      NextKeepsInv(s, steps[0]);
      StuckForever(Next(s, steps[0]), steps[1..], m);
    }
  }

  ghost predicate UnreadableAreStuck(s: World) {
    forall m :: m in s.rows && !Readable(s.rows[m].bundle) ==> Stuck(s, m)
  }

  lemma RowsKeepBundles(s: World, step: Step, m: Mid)
    requires Inv(s) && m in s.rows
    ensures m in Next(s, step).rows && Next(s, step).rows[m].bundle == s.rows[m].bundle && Next(s, step).rows[m].site == s.rows[m].site
  {
    if step.ClaimStep? {
      ClaimIsLegal(s.rows, step.site, step.worker, step.now, step.duration);
      assert RowForward(s.rows, ClaimNext(s.rows, step.site, step.worker, step.now, step.duration).0, m);
      Unmoved(s.rows);
    } else if !step.Insert? {
      StepTouchesItsRow(s, step);
      assert RowForward(s.rows, Next(s, step).rows, m);
    }
  }

  lemma NoNewRows(s: World, step: Step, m: Mid)
    requires Inv(s) && m in Next(s, step).rows && m !in s.rows
    ensures step.Insert? && step.row.id == m && Next(s, step).rows[m] == step.row
  {
    if step.ClaimStep? {
      ClaimIsLegal(s.rows, step.site, step.worker, step.now, step.duration);
    } else if !step.Insert? {
      StepTouchesItsRow(s, step);
    }
  }

  lemma StepKeepsStuck(s: World, step: Step)
    requires Inv(s) && UnreadableAreStuck(s) && (step.Insert? ==> FreshRow(step.row))
    ensures UnreadableAreStuck(Next(s, step))
  {
    var s' := Next(s, step);
    forall m | m in s'.rows && !Readable(s'.rows[m].bundle) ensures Stuck(s', m) {
      if m in s.rows {
        RowsKeepBundles(s, step, m);
        StepLeavesStuck(s, step, m);
      } else {
        NoNewRows(s, step, m);
      }
    }
  }

  lemma {:induction false} RunKeepsStuck(s: World, steps: seq<Step>)
    requires Inv(s) && Valid(steps) && UnreadableAreStuck(s)
    ensures UnreadableAreStuck(Run(s, steps))
    decreases |steps|
  {
    if steps != [] {
      StepKeepsStuck(s, steps[0]);
      NextKeepsInv(s, steps[0]);
      RunKeepsStuck(Next(s, steps[0]), steps[1..]);
    }
  }

  /** Whenever the site is asked for work, the row is due and nothing claimable comes before it. */
  ghost predicate HeadsThroughout(s: World, steps: seq<Step>, m: Mid)
    decreases |steps|
  {
    m in s.rows && (steps != [] ==>
      && (steps[0].ClaimStep? && steps[0].site == s.rows[m].site ==> Heads(s.rows, steps[0].site, steps[0].now, m))
      && HeadsThroughout(Next(s, steps[0]), steps[1..], m))
  }

  /** No row of the site has been given an attempt, and rows that came in have none. */
  ghost predicate NoneClaimed(s: World, s': World, site: string) {
    forall c :: c in s'.rows && s'.rows[c].site == site ==> s'.rows[c].attempt == if c in s.rows then s.rows[c].attempt else 0
  }

  lemma ClaimOfHeadClaimsNothing(s: World, step: Step, m: Mid)
    requires Inv(s) && Stuck(s, m) && step.ClaimStep? && step.site == s.rows[m].site && Heads(s.rows, step.site, step.now, m)
    ensures Next(s, step).rows == s.rows
  {
    if step.site != "" && step.worker != "" && step.duration > 0 {
      ClaimRollsBackIff(s.rows, step.site, step.worker, step.now, step.duration);
    }
  }

  lemma ClaimElsewhere(t: Table, site: string, worker: string, now: int, duration: int, c: Mid)
    requires TableOK(t) && c in t && t[c].site != site
    ensures var t' := ClaimNext(t, site, worker, now, duration).0; c in t' && t'[c] == t[c]
  {
    assert Reap(t, site, now)[c] == t[c];
  }

  lemma StepClaimsNone(s: World, step: Step, m: Mid)
    requires Inv(s) && Stuck(s, m) && (step.Insert? ==> FreshRow(step.row))
    requires step.ClaimStep? && step.site == s.rows[m].site ==> Heads(s.rows, step.site, step.now, m)
    ensures NoneClaimed(s, Next(s, step), s.rows[m].site)
  {
    var s', site := Next(s, step), s.rows[m].site;
    if step.ClaimStep? && step.site == site { ClaimOfHeadClaimsNothing(s, step, m); }
    if !step.ClaimStep? && !step.Insert? { StepTouchesItsRow(s, step); }
    forall c | c in s'.rows && s'.rows[c].site == site ensures s'.rows[c].attempt == if c in s.rows then s.rows[c].attempt else 0 {
      if c !in s.rows {
        NoNewRows(s, step, c);
      } else {
        RowsKeepBundles(s, step, c);
        if step.ClaimStep? && step.site != site { ClaimElsewhere(s.rows, step.site, step.worker, step.now, step.duration, c); }
      }
    }
  }

  lemma NoneClaimedTransitive(s: World, s1: World, s2: World, site: string)
    requires NoneClaimed(s, s1, site) && NoneClaimed(s1, s2, site)
    requires forall c :: c in s.rows ==> c in s1.rows && s1.rows[c].site == s.rows[c].site
    requires forall c :: c in s1.rows && c in s2.rows ==> s2.rows[c].site == s1.rows[c].site
    ensures NoneClaimed(s, s2, site)
  {
  }

  lemma {:induction false} RunKeepsSites(s: World, steps: seq<Step>, c: Mid)
    requires Inv(s) && Valid(steps) && c in s.rows
    ensures c in Run(s, steps).rows && Run(s, steps).rows[c].site == s.rows[c].site
    decreases |steps|
  {
    if steps != [] {
      RowsKeepBundles(s, steps[0], c);
      NextKeepsInv(s, steps[0]);
      RunKeepsSites(Next(s, steps[0]), steps[1..], c);
    }
  }

  /** An unreadable row blocks its site: over every run in which it is due and first whenever the site
      is asked for work, no row of the site is claimed, and it stays where it is itself. */
  lemma {:induction false} UnreadableHeadBlocksSite(s: World, steps: seq<Step>, m: Mid)
    requires Inv(s) && Valid(steps) && Stuck(s, m) && HeadsThroughout(s, steps, m)
    ensures NoneClaimed(s, Run(s, steps), s.rows[m].site)
    ensures m in Run(s, steps).rows && Run(s, steps).rows[m] == s.rows[m]
    decreases |steps|
  {
    StuckForever(s, steps, m);
    if steps != [] {
      var s1 := Next(s, steps[0]);
      StepClaimsNone(s, steps[0], m);
      StepLeavesStuck(s, steps[0], m);
      NextKeepsInv(s, steps[0]);
      UnreadableHeadBlocksSite(s1, steps[1..], m);
      forall c | c in s.rows ensures c in s1.rows && s1.rows[c].site == s.rows[c].site { RowsKeepBundles(s, steps[0], c); }
      forall c | c in s1.rows ensures c in Run(s1, steps[1..]).rows && Run(s1, steps[1..]).rows[c].site == s1.rows[c].site {
        RunKeepsSites(s1, steps[1..], c);
      }
      NoneClaimedTransitive(s, s1, Run(s, steps), s.rows[m].site);
    }
  }

  /** Only claims, and the row is due at every one of its own site. */
  predicate OnlyClaims(steps: seq<Step>, r: Row) {
    forall i :: 0 <= i < |steps| ==> steps[i].ClaimStep? && (steps[i].site == r.site ==> r.nextAt <= steps[i].now)
  }

  /** The row sorts before every row of its site. */
  ghost predicate LeastOfSite(t: Table, m: Mid) {
    m in t && forall c :: c in t && t[c].site == t[m].site ==> RowBefore(t[m], t[c])
  }

  lemma LeastStaysLeast(s: World, step: Step, m: Mid)
    requires Inv(s) && Stuck(s, m) && LeastOfSite(s.rows, m)
    requires step.ClaimStep? && (step.site == s.rows[m].site ==> s.rows[m].nextAt <= step.now)
    ensures LeastOfSite(Next(s, step).rows, m) && Next(s, step).rows[m] == s.rows[m]
    ensures step.site == s.rows[m].site ==> Heads(s.rows, step.site, step.now, m)
  {
    var site := s.rows[m].site;
    if step.site == site {
      ClaimOfHeadClaimsNothing(s, step, m);
    } else {
      ClaimLeavesStuck(s, step, m);
      forall c | c in Next(s, step).rows && Next(s, step).rows[c].site == site ensures RowBefore(s.rows[m], Next(s, step).rows[c]) {
        if c !in s.rows { NoNewRows(s, step, c); } else {
          RowsKeepBundles(s, step, c);
          ClaimElsewhere(s.rows, step.site, step.worker, step.now, step.duration, c);
        }
      }
    }
  }

  /** Any claims by any workers at clocks where the row is due: if it sorts first in its site, it is
      first at every one of them. */
  lemma {:induction false} LeastHeadsThroughout(s: World, steps: seq<Step>, m: Mid)
    requires Inv(s) && Stuck(s, m) && LeastOfSite(s.rows, m) && OnlyClaims(steps, s.rows[m])
    ensures HeadsThroughout(s, steps, m) && Valid(steps)
    decreases |steps|
  {
    if steps != [] {
      LeastStaysLeast(s, steps[0], m);
      NextKeepsInv(s, steps[0]);
      LeastHeadsThroughout(Next(s, steps[0]), steps[1..], m);
      assert forall i :: 0 < i < |steps| ==> steps[i] == steps[1..][i-1];
    }
  }

  /** So nothing of the site is ever claimed. */
  lemma ClaimsNeverPassTheHead(s: World, steps: seq<Step>, m: Mid)
    requires Inv(s) && Stuck(s, m) && LeastOfSite(s.rows, m) && OnlyClaims(steps, s.rows[m])
    ensures NoneClaimed(s, Run(s, steps), s.rows[m].site)
  {
    LeastHeadsThroughout(s, steps, m);
    UnreadableHeadBlocksSite(s, steps, m);
  }

  /** In every reachable world a row that cannot be read is exactly as it was inserted: pending and
      never attempted. */
  lemma UnreadableRowsNeverStart(steps: seq<Step>, m: Mid)
    requires Valid(steps) && m in Run(START, steps).rows && !Readable(Run(START, steps).rows[m].bundle)
    ensures Stuck(Run(START, steps), m)
  {
    StartIsInv();
    RunKeepsStuck(START, steps);
  }

  // ---- leases ---------------------------------------------------------------------------------

  /** While its attempt runs, a process's lease ends its own duration after the row's last update. */
  predicate LeaseOK(s: World, pid: int) {
    pid in s.procs && !s.procs[pid].Idle? ==>
      var c := s.procs[pid].claim;
      && c.duration > 0
      && (c.id in s.rows && s.rows[c.id].attempt == c.attempt && s.rows[c.id].status == RunningRow ==>
            s.rows[c.id].expires == Some(s.rows[c.id].updatedAt + c.duration))
  }

  ghost predicate Leases(s: World) {
    forall pid {:trigger LeaseOK(s, pid)} :: LeaseOK(s, pid)
  }

  lemma ClaimMovesAttempt(t: Table, site: string, worker: string, now: int, duration: int, m: Mid)
    requires TableOK(t) && m in t
    ensures var t' := ClaimNext(t, site, worker, now, duration).0;
      m in t' && (t'[m] == t[m] || t'[m].status == DeadLetterRow || t'[m].attempt == t[m].attempt + 1)
  {
    assert Reap(t, site, now)[m] == ReapRow(t[m], site, now);
  }

  /** What a claim step does: at most the claimed row gets its next attempt, and its process the claim. */
  lemma ClaimStepIs(s: World, step: Step) returns (c: Option<Claim>)
    requires Inv(s) && step.ClaimStep?
    ensures var s' := Next(s, step);
      && s'.procs == (if c.Some? then s.procs[step.pid := Claimed(c.value)] else s.procs)
      && (forall m :: m in s.rows ==> m in s'.rows && (s'.rows[m] == s.rows[m] || s'.rows[m].status == DeadLetterRow || s'.rows[m].attempt == s.rows[m].attempt + 1))
      && (c.Some? ==>
            && PcOf(s, step.pid).Idle? && c.value.duration > 0 && c.value.id in s.rows
            && s'.rows[c.value.id] == ClaimedRow(s.rows[c.value.id], c.value.worker, step.now, c.value.duration))
  {
    ClaimIsLegal(s.rows, step.site, step.worker, step.now, step.duration);
    forall m | m in s.rows ensures m in ClaimNext(s.rows, step.site, step.worker, step.now, step.duration).0 {
      ClaimMovesAttempt(s.rows, step.site, step.worker, step.now, step.duration, m);
    }
    var reply := ClaimNext(s.rows, step.site, step.worker, step.now, step.duration).1;
    c := if PcOf(s, step.pid).Idle? && reply.Ok? then reply.value else None;
  }

  lemma MovedKeepsLease(s: World, s': World, p: int)
    requires LeaseOK(s, p) && PcOK(s, p) && p in s.procs && p in s'.procs && s'.procs[p] == s.procs[p]
    requires forall m :: m in s.rows ==> m in s'.rows && (s'.rows[m] == s.rows[m] || s'.rows[m].status == DeadLetterRow || s'.rows[m].attempt == s.rows[m].attempt + 1)
    ensures LeaseOK(s', p)
  {
  }

  lemma ClaimKeepsLease(s: World, step: Step, p: int)
    requires Inv(s) && Leases(s) && step.ClaimStep?
    ensures LeaseOK(Next(s, step), p)
  {
    var c := ClaimStepIs(s, step);
    assert LeaseOK(s, p) && PcOK(s, p);
    if p in s.procs && !(c.Some? && p == step.pid) { MovedKeepsLease(s, Next(s, step), p); }
  }

  lemma UpdateKeepsLease(s: World, s': World, q: int, p: int)
    requires LeaseOK(s, p) && Apart(s, p, q) && s'.rows.Keys == s.rows.Keys
    requires PcOf(s', p) == PcOf(s, p) || PcOf(s', p).Idle? || (!PcOf(s, p).Idle? && PcOf(s', p).claim == PcOf(s, p).claim)
    requires forall m :: m in s.rows && s'.rows[m] != s.rows[m] ==> Held(s, q) == Some(m) && UpdatedUnder(PcOf(s, q).claim, s.rows[m], s'.rows[m])
    ensures LeaseOK(s', p)
  {
  }

  lemma StepKeepsLease(s: World, step: Step, p: int)
    requires Inv(s) && Leases(s) && !step.ClaimStep? && !step.Insert?
    ensures LeaseOK(Next(s, step), p)
  {
    assert LeaseOK(s, p) && Apart(s, p, step.pid);
    StepMovesItsProcess(s, step, p);
    StepTouchesItsRow(s, step);
    UpdateKeepsLease(s, Next(s, step), step.pid, p);
  }

  lemma NextKeepsLeases(s: World, step: Step)
    requires Inv(s) && Leases(s)
    ensures Leases(Next(s, step))
  {
    forall p ensures LeaseOK(Next(s, step), p) {
      if step.ClaimStep? {
        ClaimKeepsLease(s, step, p);
      } else if step.Insert? {
        assert LeaseOK(s, p) && PcOK(s, p);
      } else {
        StepKeepsLease(s, step, p);
      }
    }
  }

  lemma {:induction false} RunKeepsLeases(s: World, steps: seq<Step>)
    requires Inv(s) && Leases(s) && Valid(steps)
    ensures Leases(Run(s, steps))
    decreases |steps|
  {
    if steps != [] {
      NextKeepsLeases(s, steps[0]);
      NextKeepsInv(s, steps[0]);
      RunKeepsLeases(Next(s, steps[0]), steps[1..]);
    }
  }

  /** The transition trigger never refuses a worker's heartbeat: a worker renews with the duration it
      claimed with, so a renewal that would extend the lease never comes before the last update. */
  lemma TriggerNeverRefusesHeartbeat(steps: seq<Step>, pid: int, now: int)
    requires Valid(steps) && !PcOf(Run(START, steps), pid).Idle?
    ensures var s := Run(START, steps);
      var c := PcOf(s, pid).claim;
      Heartbeat(s.rows, c.id, c.worker, c.attempt, now, c.duration).1 in {Ok(()), Err(LeaseConflictError)}
  {
    StartIsInv();
    RunKeepsInv(START, steps);
    RunKeepsLeases(START, steps);
    assert PcOK(Run(START, steps), pid) && LeaseOK(Run(START, steps), pid);
  }

  /** Attempt `a` of the row has ended. */
  predicate Ended(t: Table, m: Mid, a: int) {
    m in t && (t[m].attempt > a || (t[m].attempt == a && t[m].status != RunningRow))
  }

  lemma StepRowsForward(s: World, step: Step, m: Mid)
    requires Inv(s) && m in s.rows
    ensures RowForward(s.rows, Next(s, step).rows, m)
  {
    Unmoved(s.rows);
    if step.ClaimStep? {
      ClaimIsLegal(s.rows, step.site, step.worker, step.now, step.duration);
    } else if !step.Insert? {
      StepTouchesItsRow(s, step);
    }
  }

  lemma {:induction false} EndedStaysEnded(s: World, steps: seq<Step>, m: Mid, a: int)
    requires Inv(s) && Valid(steps) && Ended(s.rows, m, a)
    ensures Ended(Run(s, steps).rows, m, a)
    decreases |steps|
  {
    if steps != [] {
      StepRowsForward(s, steps[0], m);
      NextKeepsInv(s, steps[0]);
      EndedStaysEnded(Next(s, steps[0]), steps[1..], m, a);
    }
  }

  /** Over any run, as long as a row is running at the same attempt its lease has not become shorter. */
  lemma {:induction false} LeaseNeverShortens(s: World, steps: seq<Step>, m: Mid)
    requires Inv(s) && Valid(steps) && m in s.rows && s.rows[m].status == RunningRow
    ensures var s' := Run(s, steps);
      && m in s'.rows
      && (s'.rows[m].status == RunningRow && s'.rows[m].attempt == s.rows[m].attempt ==>
            && s.rows[m].expires.Some? && s'.rows[m].expires.Some?
            && s.rows[m].expires.value <= s'.rows[m].expires.value && s'.rows[m].owner == s.rows[m].owner)
    decreases |steps|
  {
    if steps != [] {
      var s1 := Next(s, steps[0]);
      StepRowsForward(s, steps[0], m);
      NextKeepsInv(s, steps[0]);
      if s1.rows[m].status == RunningRow && s1.rows[m].attempt == s.rows[m].attempt {
        LeaseNeverShortens(s1, steps[1..], m);
      } else {
        EndedStaysEnded(s1, steps[1..], m, s.rows[m].attempt);
      }
    }
  }

  // ---- a written draft and later attempts -----------------------------------------------------

  /** After a draft was written, a request that is answered brings its sender to a receipt exactly when
      it asks for the same intent and the first answer was a matching receipt; otherwise it meets a
      body conflict. */
  lemma ReceiptedIff(steps: seq<Step>, pid: int, answer: Receipt, d: Draft)
    requires Valid(steps) && PcOf(Run(START, steps), pid).Sending?
    requires Lookup(Run(START, steps).drafts, PcOf(Run(START, steps), pid).claim.id) == Some(d)
    ensures var s := Run(START, steps);
      var pc := PcOf(s, pid);
      var s' := Next(s, SendStep(pid, answer, false, false));
      && s'.drafts == s.drafts
      && (if pc.intent == d.intent && Names(d.receipt, pc.claim.id, d.intent)
          then PcOf(s', pid) == Receipted(pc.claim, pc.intent, d.receipt)
          else PcOf(s', pid) == Failing(pc.claim, BodyConflict))
  {
  }

  /** A request whose answer is lost or late is reported as a failure, also when the server writes the
      draft; an answered first request is written as asked, and brings a receipt iff the answer matches. */
  lemma FirstSendEffect(s: World, pid: int, answer: Receipt, lost: bool, delayed: bool)
    requires PcOf(s, pid).Sending? && forall i :: !IsFor(s.drafts, i, PcOf(s, pid).claim.id)
    ensures var pc := PcOf(s, pid);
      var s' := Next(s, SendStep(pid, answer, lost, delayed));
      && s'.rows == s.rows
      && s'.drafts == (if delayed then s.drafts else s.drafts + [Draft(pc.claim.id, pc.intent, answer)])
      && PcOf(s', pid) == (if lost || delayed then Failing(pc.claim, MaterializationFailed)
                           else if Names(answer, pc.claim.id, pc.intent) then Receipted(pc.claim, pc.intent, answer)
                           else Failing(pc.claim, BodyConflict))
  {
    LookupFinds(s.drafts, PcOf(s, pid).claim.id);
  }

  /** Whoever holds a receipt for a request asked for the intent the server wrote first, and the
      receipt is the server's first answer. */
  lemma ReceiptsNameTheDraft(s: World, pid: int, m: Mid)
    requires Inv(s) && PcOf(s, pid).Receipted? && PcOf(s, pid).claim.id == m
    ensures var d := Lookup(s.drafts, m);
      d.Some? && PcOf(s, pid).intent == d.value.intent && PcOf(s, pid).receipt == d.value.receipt
  {
    assert PcOK(s, pid);
  }

  /** A process on the request that shaped this intent. */
  predicate Wants(s: World, pid: int, m: Mid, i: Intent) {
    var pc := PcOf(s, pid);
    (pc.Shaped? || pc.Sending? || pc.Receipted?) && pc.claim.id == m && pc.intent == i
  }

  ghost predicate NobodyWants(s: World, m: Mid, i: Intent) {
    forall pid {:trigger Wants(s, pid, m, i)} :: !Wants(s, pid, m, i)
  }

  /** From here on no attempt at the request shapes this intent again. */
  ghost predicate NeverShapedAgain(s: World, steps: seq<Step>, m: Mid, i: Intent)
    decreases |steps|
  {
    steps != [] ==>
      && !(&& steps[0].ShapeStep? && PcOf(s, steps[0].pid).Resolving? && PcOf(s, steps[0].pid).claim.id == m
           && !steps[0].resolverRaises && Materialize(PcOf(s, steps[0].pid).claim.envelope, steps[0].context) == Ok(i))
      && NeverShapedAgain(Next(s, steps[0]), steps[1..], m, i)
  }

  lemma StepWantsNothingNew(s: World, step: Step, m: Mid, i: Intent)
    requires NobodyWants(s, m, i)
    requires !(&& step.ShapeStep? && PcOf(s, step.pid).Resolving? && PcOf(s, step.pid).claim.id == m
               && !step.resolverRaises && Materialize(PcOf(s, step.pid).claim.envelope, step.context) == Ok(i))
    ensures NobodyWants(Next(s, step), m, i)
  {
    forall pid ensures !Wants(Next(s, step), pid, m, i) { assert !Wants(s, pid, m, i); }
  }

  lemma StepDoesNotDeliver(s: World, step: Step, m: Mid, d: Draft)
    requires Inv(s) && m in s.rows && s.rows[m].status != SucceededRow && Lookup(s.drafts, m) == Some(d) && NobodyWants(s, m, d.intent)
    ensures m in Next(s, step).rows && Next(s, step).rows[m].status != SucceededRow
  {
    StepRowsForward(s, step, m);
    if step.ClaimStep? {
      ClaimMakesNoReceipt(s.rows, step.site, step.worker, step.now, step.duration);
      ClaimIsLegal(s.rows, step.site, step.worker, step.now, step.duration);
    } else if step.AckStep? && PcOf(s, step.pid).Receipted? && PcOf(s, step.pid).claim.id == m {
      ReceiptsNameTheDraft(s, step.pid, m);
      assert Wants(s, step.pid, m, d.intent);
    }
  }

  /** Once a draft was written, attempts that shape anything else never deliver: as long as nobody asks
      for the written intent again, the row never succeeds and the draft stays as it is. */
  lemma {:induction false} OtherIntentsNeverDeliver(s: World, steps: seq<Step>, m: Mid, d: Draft)
    requires Inv(s) && Valid(steps) && m in s.rows && s.rows[m].status != SucceededRow
    requires Lookup(s.drafts, m) == Some(d) && NobodyWants(s, m, d.intent) && NeverShapedAgain(s, steps, m, d.intent)
    ensures var s' := Run(s, steps); m in s'.rows && s'.rows[m].status != SucceededRow && Lookup(s'.drafts, m) == Some(d)
    decreases |steps|
  {
    if steps != [] {
      StepDoesNotDeliver(s, steps[0], m, d);
      NextSettles(s, steps[0], m);
      StepWantsNothingNew(s, steps[0], m, d.intent);
      NextKeepsInv(s, steps[0]);
      OtherIntentsNeverDeliver(Next(s, steps[0]), steps[1..], m, d);
    }
  }

  /** If the server's first answer did not match its own request, no later attempt can repair it: the
      row never succeeds, whatever is shaped. */
  lemma BadFirstAnswerNeverDelivers(s: World, steps: seq<Step>, m: Mid, d: Draft)
    requires Inv(s) && Valid(steps) && Lookup(s.drafts, m) == Some(d) && !Names(d.receipt, m, d.intent)
    ensures m in Run(s, steps).rows ==> Run(s, steps).rows[m].status != SucceededRow
  {
    SettledForever(s, steps, m);
    RunKeepsInv(s, steps);
    assert RowReceiptOK(Run(s, steps), m);
  }
}
