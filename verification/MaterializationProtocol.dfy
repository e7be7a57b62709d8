/** The delivery protocol as a distributed system: any number of processes run
    MaterializationWorker.run_once step by step against one outbox and one Frappe server. They
    interleave freely, crash at any point, keep running after their lease expired, and read
    clocks that agree on nothing. A request may reach the server long after its sender gave up on it. */
module MaterializationProtocol {
  import opened Wrappers
  import opened TaskModel
  import opened Materializer
  import opened ProposalBundle
  import opened Outbox

  /** One write the server performed, and the receipt it answered with. */
  datatype Draft = Draft(requestId: Mid, intent: Intent, receipt: Receipt)

  datatype Outcome = Delivered | Rescheduled | GaveUp | LeaseLost

  /** Where a process stands inside run_once. */
  datatype Pc =
    | Idle
    | Claimed(claim: Claim)
    | Resolving(claim: Claim)
    | Shaped(claim: Claim, intent: Intent)
    | Sending(claim: Claim, intent: Intent)
    | Receipted(claim: Claim, intent: Intent, receipt: Receipt)
    | Failing(claim: Claim, code: ErrorCode)
    | Finished(claim: Claim, outcome: Outcome)

  /** A request whose sender no longer waits for the answer. */
  datatype Request = Request(pid: int, id: Mid, intent: Intent)

  /** `inFlight` are requests that the network may still deliver, at any later time and any number of
      times, or never. */
  datatype World = World(rows: Table, drafts: seq<Draft>, procs: map<int, Pc>, inFlight: set<Request>)

  datatype Step =
    | Insert(row: Row)
    | ClaimStep(pid: int, site: string, worker: string, now: int, duration: int)
    | BeatStep(pid: int, now: int)
    | ShapeStep(pid: int, context: Option<Context>, resolverRaises: bool)
    | SendStep(pid: int, answer: Receipt, lost: bool, delayed: bool)
    | ServeStep(pid: int, id: Mid, intent: Intent, answer: Receipt)
    | AckStep(pid: int, now: int)
    | FailStep(pid: int, now: int, retryAt: int)
    | Crash(pid: int)

  function PcOf(s: World, pid: int): Pc { if pid in s.procs then s.procs[pid] else Idle }

  function Goto(s: World, pid: int, pc: Pc): World { s.(procs := s.procs[pid := pc]) }

  // ---- the server --------------------------------------------------------------------------

  function Lookup(drafts: seq<Draft>, m: Mid): Option<Draft> {
    if drafts == [] then None
    else if drafts[|drafts|-1].requestId == m then Some(drafts[|drafts|-1])
    else Lookup(drafts[..|drafts|-1], m)
  }

  /** How many times the server wrote a draft for this request. */
  function Writes(drafts: seq<Draft>, m: Mid): nat {
    if drafts == [] then 0
    else Writes(drafts[..|drafts|-1], m) + if drafts[|drafts|-1].requestId == m then 1 else 0
  }

  /** The contract of the idempotent client: writes are keyed by request id, the same body
      replays the stored receipt, another body conflicts. The first receipt is whatever the
      server likes to answer. */
  function Serve(drafts: seq<Draft>, m: Mid, intent: Intent, answer: Receipt): (seq<Draft>, Result<Receipt, CallError>) {
    match Lookup(drafts, m)
    case None => (drafts + [Draft(m, intent, answer)], Ok(answer))
    case Some(d) => (drafts, if d.intent == intent then Ok(d.receipt) else Err(IdempotencyError))
  }

  /** _validate_receipt: the answer must name this request, this body and its doctype. */
  predicate ReceiptMatches(r: Receipt, m: Mid, intent: Intent) {
    r.requestId == m && r.digest == intent && r.doctype == intent.doctype
  }

  // ---- the worker, one step at a time ---------------------------------------------------------

  function CodeOf(e: CallError): ErrorCode {
    if e == IdempotencyError then BodyConflict else MaterializationFailed
  }

  /** How an exception leaves the try block. */
  function Caught(claim: Claim, e: CallError): Pc {
    if e == LeaseConflictError then Finished(claim, LeaseLost) else Failing(claim, CodeOf(e))
  }

  ghost function Next(s: World, step: Step): World {
    match step
    case Insert(row) => if row.id in s.rows then s else s.(rows := s.rows[row.id := row])
    case ClaimStep(pid, site, worker, now, duration) => if PcOf(s, pid) != Idle then s else NextClaim(s, pid, site, worker, now, duration)
    case BeatStep(pid, now) => NextBeat(s, pid, now)
    case ShapeStep(pid, context, raises) => NextShape(s, pid, context, raises)
    case SendStep(pid, answer, lost, delayed) => NextSend(s, pid, answer, lost, delayed)
    case ServeStep(pid, id, intent, answer) => NextServe(s, Request(pid, id, intent), answer)
    case AckStep(pid, now) => NextAck(s, pid, now)
    case FailStep(pid, now, retryAt) => NextFail(s, pid, now, retryAt)
    case Crash(pid) => Goto(s, pid, Idle)
  }

  ghost function NextClaim(s: World, pid: int, site: string, worker: string, now: int, duration: int): World {
    var (rows, reply) := ClaimNext(s.rows, site, worker, now, duration);
    var s1 := s.(rows := rows);
    if reply.Ok? && reply.value.Some? then Goto(s1, pid, Claimed(reply.value.value)) else s1
  }

  /** Both heartbeats of run_once, with the duration of the claim. */
  function NextBeat(s: World, pid: int, now: int): World {
    var pc := PcOf(s, pid);
    if !pc.Claimed? && !pc.Shaped? then s
    else
      var (rows, reply) := Heartbeat(s.rows, pc.claim.id, pc.claim.worker, pc.claim.attempt, now, pc.claim.duration);
      Goto(s.(rows := rows), pid,
           match reply
           case Err(e) => Caught(pc.claim, e)
           case Ok(_) => if pc.Claimed? then Resolving(pc.claim) else Sending(pc.claim, pc.intent))
  }

  function NextShape(s: World, pid: int, context: Option<Context>, raises: bool): World {
    var pc := PcOf(s, pid);
    if !pc.Resolving? then s
    else if raises then Goto(s, pid, Failing(pc.claim, MaterializationFailed))
    else Goto(s, pid,
              match Materialize(pc.claim.envelope, context)
              case Err(_) => Failing(pc.claim, MaterializationFailed)
              case Ok(intent) => Shaped(pc.claim, intent))
  }

  /** The answer may be lost after the server wrote, or the sender may give up on a request that is
      still on its way. */
  function NextSend(s: World, pid: int, answer: Receipt, lost: bool, delayed: bool): World {
    var pc := PcOf(s, pid);
    if !pc.Sending? then s
    else if delayed then
      Goto(s.(inFlight := s.inFlight + {Request(pid, pc.claim.id, pc.intent)}), pid, Failing(pc.claim, MaterializationFailed))
    else
      var (drafts, reply) := Serve(s.drafts, pc.claim.id, pc.intent, answer);
      Goto(s.(drafts := drafts), pid,
           if lost then Failing(pc.claim, MaterializationFailed)
           else match reply
             case Err(e) => Failing(pc.claim, CodeOf(e))
             case Ok(r) => if ReceiptMatches(r, pc.claim.id, pc.intent) then Receipted(pc.claim, pc.intent, r)
                           else Failing(pc.claim, BodyConflict))
  }

  /** The server gets a request nobody waits for: after its sender failed, crashed or was overtaken by
      later attempts. */
  function NextServe(s: World, q: Request, answer: Receipt): World {
    if q in s.inFlight then s.(drafts := Serve(s.drafts, q.id, q.intent, answer).0) else s
  }

  function NextAck(s: World, pid: int, now: int): World {
    var pc := PcOf(s, pid);
    if !pc.Receipted? then s
    else
      var (rows, reply) := Acknowledge(s.rows, pc.claim.id, pc.claim.worker, pc.claim.attempt, now, pc.receipt);
      Goto(s.(rows := rows), pid, match reply case Err(e) => Caught(pc.claim, e) case Ok(_) => Finished(pc.claim, Delivered))
  }

  /** A failure that cannot be recorded because its retry time is not in the future escapes
      run_once. */
  function NextFail(s: World, pid: int, now: int, retryAt: int): World {
    var pc := PcOf(s, pid);
    if !pc.Failing? then s
    else
      var (rows, reply) := Fail(s.rows, pc.claim.id, pc.claim.worker, pc.claim.attempt, now, retryAt, pc.code);
      Goto(s.(rows := rows), pid,
           match reply
           case Err(LeaseConflictError) => Finished(pc.claim, LeaseLost)
           case Err(_) => Idle
           case Ok(status) => Finished(pc.claim, if status == DeadLetterRow then GaveUp else Rescheduled))
  }

  ghost function Run(s: World, steps: seq<Step>): World
    decreases |steps|
  {
    if steps == [] then s else Run(Next(s, steps[0]), steps[1..])
  }

  /** Outbox rows enter as completion writes them: pending, never attempted. */
  predicate FreshRow(r: Row) {
    RowOK(r) && r.status == PendingRow && r.attempt == 0
  }

  predicate Valid(steps: seq<Step>) {
    forall i :: 0 <= i < |steps| && steps[i].Insert? ==> FreshRow(steps[i].row)
  }

  const START: World := World(map[], [], map[], {})

  // ---- the invariant -------------------------------------------------------------------------

  /** A receipt is the one the server wrote for this request, and it matches the stored body. */
  predicate Genuine(drafts: seq<Draft>, m: Mid, r: Receipt) {
    var d := Lookup(drafts, m);
    d.Some? && d.value.receipt == r && ReceiptMatches(r, m, d.value.intent)
  }

  /** A claim names a row that has reached its attempt, and carries that row's proposal. While
      the attempt is current and running, the claim's worker holds the lease. */
  predicate ClaimOK(rows: Table, c: Claim) {
    && c.id in rows && ReadBundle(rows[c.id].bundle) == Some(c.envelope)
    && 1 <= c.attempt <= rows[c.id].attempt
    && (c.attempt == rows[c.id].attempt && rows[c.id].status == RunningRow ==> rows[c.id].owner == Some(c.worker))
  }

  ghost predicate PcOK(s: World, pid: int) {
    pid in s.procs ==>
      match s.procs[pid]
      case Idle => true
      case Claimed(c) => ClaimOK(s.rows, c)
      case Resolving(c) => ClaimOK(s.rows, c)
      case Shaped(c, i) => ClaimOK(s.rows, c) && Derived(c.envelope, i)
      case Sending(c, i) => ClaimOK(s.rows, c) && Derived(c.envelope, i)
      case Receipted(c, i, r) => ClaimOK(s.rows, c) && Derived(c.envelope, i) && Genuine(s.drafts, c.id, r) && ReceiptMatches(r, c.id, i)
      case Failing(c, _) => ClaimOK(s.rows, c)
      case Finished(c, o) =>
        && ClaimOK(s.rows, c)
        && (o == Delivered ==> s.rows[c.id].status == SucceededRow)
        && (o == GaveUp ==> s.rows[c.id].status == DeadLetterRow)
  }

  /** No two processes hold the same attempt of the same row. */
  predicate Apart(s: World, p: int, q: int) {
    p != q && p in s.procs && q in s.procs && !s.procs[p].Idle? && !s.procs[q].Idle? ==>
      s.procs[p].claim.id != s.procs[q].claim.id || s.procs[p].claim.attempt != s.procs[q].claim.attempt
  }

  predicate RowReceiptOK(s: World, m: Mid) {
    m in s.rows && s.rows[m].receipt.Some? ==> Genuine(s.drafts, m, s.rows[m].receipt.value)
  }

  /** A written draft belongs to a row and was shaped from that row's own proposal. */
  ghost predicate DraftOK(s: World, m: Mid) {
    var d := Lookup(s.drafts, m);
    && Writes(s.drafts, m) == (if d.Some? then 1 else 0)
    && (d.Some? ==> m in s.rows && ReadBundle(s.rows[m].bundle).Some? && Derived(ReadBundle(s.rows[m].bundle).value, d.value.intent))
  }

  /** A request on its way was shaped from its row's own proposal. */
  ghost predicate FlightOK(s: World, q: Request) {
    q in s.inFlight ==>
      q.id in s.rows && ReadBundle(s.rows[q.id].bundle).Some? && Derived(ReadBundle(s.rows[q.id].bundle).value, q.intent)
  }

  ghost predicate Inv(s: World) {
    && TableOK(s.rows)
    && (forall pid {:trigger PcOK(s, pid)} :: PcOK(s, pid))
    && (forall p, q {:trigger Apart(s, p, q)} :: Apart(s, p, q))
    && (forall m {:trigger RowReceiptOK(s, m)} :: RowReceiptOK(s, m))
    && (forall m {:trigger DraftOK(s, m)} :: DraftOK(s, m))
    && (forall q {:trigger FlightOK(s, q)} :: FlightOK(s, q))
  }

  // ---- preservation -------------------------------------------------------------------------

  lemma ClaimStaysOK(rows: Table, rows': Table, c: Claim)
    requires ClaimOK(rows, c) && TableForward(rows, rows')
    ensures ClaimOK(rows', c)
    ensures rows[c.id].status in {SucceededRow, DeadLetterRow} ==> rows'[c.id] == rows[c.id]
  {
    assert RowForward(rows, rows', c.id);
  }

  /** Moving the rows forward keeps everything said about processes and drafts. */
  lemma RowsForwardKeepsInv(s: World, rows: Table)
    requires Inv(s) && TableOK(rows) && TableForward(s.rows, rows)
    requires forall m :: m in rows && rows[m].receipt.Some? && rows[m] != s.rows[m] ==> Genuine(s.drafts, m, rows[m].receipt.value)
    ensures Inv(s.(rows := rows))
  {
    var s' := s.(rows := rows);
    forall pid ensures PcOK(s', pid) {
      assert PcOK(s, pid);
      if pid in s.procs && !s.procs[pid].Idle? { ClaimStaysOK(s.rows, rows, s.procs[pid].claim); }
    }
    forall p, q ensures Apart(s', p, q) { assert Apart(s, p, q); }
    forall m ensures RowReceiptOK(s', m) {
      assert RowReceiptOK(s, m);
    }
    forall m ensures DraftOK(s', m) {
      assert DraftOK(s, m);
      if m in s.rows { assert RowForward(s.rows, rows, m); }
    }
    forall q ensures FlightOK(s', q) {
      assert FlightOK(s, q);
      if q.id in s.rows { assert RowForward(s.rows, rows, q.id); }
    }
  }

  /** A process moves on with the claim it has, or drops it. */
  lemma GotoKeepsInv(s: World, pid: int, pc: Pc)
    requires Inv(s)
    requires pc.Idle? || (pid in s.procs && !s.procs[pid].Idle? && pc.claim == s.procs[pid].claim)
    requires PcOK(Goto(s, pid, pc), pid)
    ensures Inv(Goto(s, pid, pc))
  {
    var s' := Goto(s, pid, pc);
    forall p ensures PcOK(s', p) { assert PcOK(s, p); }
    forall p, q ensures Apart(s', p, q) { assert Apart(s, p, q); }
    forall m ensures RowReceiptOK(s', m) { assert RowReceiptOK(s, m); }
    forall m ensures DraftOK(s', m) { assert DraftOK(s, m); }
    forall q ensures FlightOK(s', q) { assert FlightOK(s, q); }
  }

  lemma InsertKeepsInv(s: World, row: Row)
    requires Inv(s) && FreshRow(row) && row.id !in s.rows
    ensures Inv(s.(rows := s.rows[row.id := row]))
  {
    var s' := s.(rows := s.rows[row.id := row]);
    forall p ensures PcOK(s', p) { assert PcOK(s, p); }
    forall p, q ensures Apart(s', p, q) { assert Apart(s, p, q); }
    forall m ensures RowReceiptOK(s', m) { assert RowReceiptOK(s, m); }
    forall m ensures DraftOK(s', m) { assert DraftOK(s, m); }
    forall q ensures FlightOK(s', q) { assert FlightOK(s, q); }
  }

  lemma ClaimKeepsInv(s: World, pid: int, site: string, worker: string, now: int, duration: int)
    requires Inv(s) && PcOf(s, pid) == Idle
    ensures Inv(NextClaim(s, pid, site, worker, now, duration))
  {
    ClaimIsLegal(s.rows, site, worker, now, duration);
    var (rows, reply) := ClaimNext(s.rows, site, worker, now, duration);
    ClaimMakesNoReceipt(s.rows, site, worker, now, duration);
    RowsForwardKeepsInv(s, rows);
    if reply.Ok? && reply.value.Some? {
      forall p | p in s.procs && !s.procs[p].Idle? ensures ClaimOK(s.rows, s.procs[p].claim) { assert PcOK(s, p); }
      GrantKeepsInv(s.(rows := rows), s.rows, pid, reply.value.value);
    }
  }

  lemma ClaimMakesNoReceipt(t: Table, site: string, worker: string, now: int, duration: int)
    requires TableOK(t)
    ensures var t' := ClaimNext(t, site, worker, now, duration).0;
      forall m :: m in t' && t'[m].receipt.Some? ==> m in t && t'[m] == t[m]
  {
    ClaimIsLegal(t, site, worker, now, duration);
  }

  /** The claimed attempt is new, so no process can hold it yet. */
  lemma GrantKeepsInv(s: World, before: Table, pid: int, c: Claim)
    requires Inv(s) && PcOf(s, pid) == Idle && ClaimOK(s.rows, c)
    requires c.id in before && c.attempt == before[c.id].attempt + 1
    requires forall p :: p in s.procs && !s.procs[p].Idle? ==> ClaimOK(before, s.procs[p].claim)
    ensures Inv(Goto(s, pid, Claimed(c)))
  {
    var s' := Goto(s, pid, Claimed(c));
    forall p ensures PcOK(s', p) { assert PcOK(s, p); }
    forall p, q ensures Apart(s', p, q) { assert Apart(s, p, q); }
    forall m ensures RowReceiptOK(s', m) { assert RowReceiptOK(s, m); }
    forall m ensures DraftOK(s', m) { assert DraftOK(s, m); }
    forall q ensures FlightOK(s', q) { assert FlightOK(s, q); }
  }

  lemma RenewalKeepsInv(s: World, c: Claim, now: int)
    requires Inv(s)
    ensures Inv(s.(rows := Heartbeat(s.rows, c.id, c.worker, c.attempt, now, c.duration).0))
  {
    HeartbeatIsLegal(s.rows, c.id, c.worker, c.attempt, now, c.duration);
    RowsForwardKeepsInv(s, Heartbeat(s.rows, c.id, c.worker, c.attempt, now, c.duration).0);
  }

  lemma BeatKeepsInv(s: World, pid: int, now: int)
    requires Inv(s)
    ensures Inv(NextBeat(s, pid, now))
  {
    var pc := PcOf(s, pid);
    if pc.Claimed? || pc.Shaped? {
      RenewalKeepsInv(s, pc.claim, now);
      var s1 := s.(rows := Heartbeat(s.rows, pc.claim.id, pc.claim.worker, pc.claim.attempt, now, pc.claim.duration).0);
      assert PcOK(s1, pid);
      GotoKeepsInv(s1, pid, NextBeat(s, pid, now).procs[pid]);
    }
  }

  lemma ShapeKeepsInv(s: World, pid: int, context: Option<Context>, raises: bool)
    requires Inv(s)
    ensures Inv(NextShape(s, pid, context, raises))
  {
    var pc := PcOf(s, pid);
    if pc.Resolving? {
      assert PcOK(s, pid);
      GotoKeepsInv(s, pid, NextShape(s, pid, context, raises).procs[pid]);
    }
  }

  lemma LookupAppend(drafts: seq<Draft>, d: Draft, m: Mid)
    ensures Lookup(drafts + [d], m) == if d.requestId == m then Some(d) else Lookup(drafts, m)
    ensures Writes(drafts + [d], m) == Writes(drafts, m) + if d.requestId == m then 1 else 0
  {
    assert (drafts + [d])[..|drafts|] == drafts;
  }

  /** A new write for a request that had none keeps everything said about other requests. */
  lemma WriteKeepsInv(s: World, d: Draft)
    requires Inv(s) && Lookup(s.drafts, d.requestId).None?
    requires d.requestId in s.rows && ReadBundle(s.rows[d.requestId].bundle).Some? && Derived(ReadBundle(s.rows[d.requestId].bundle).value, d.intent)
    ensures Inv(s.(drafts := s.drafts + [d]))
  {
    var s' := s.(drafts := s.drafts + [d]);
    forall m: Mid, r | Genuine(s.drafts, m, r) ensures Genuine(s'.drafts, m, r) { LookupAppend(s.drafts, d, m); }
    forall p ensures PcOK(s', p) { assert PcOK(s, p); }
    forall p, q ensures Apart(s', p, q) { assert Apart(s, p, q); }
    forall m ensures RowReceiptOK(s', m) { assert RowReceiptOK(s, m); }
    forall m ensures DraftOK(s', m) { assert DraftOK(s, m); LookupAppend(s.drafts, d, m); }
    forall q ensures FlightOK(s', q) { assert FlightOK(s, q); }
  }

  /** Serving a request that was shaped from its own row's proposal. */
  lemma ServeKeepsInv(s: World, m: Mid, intent: Intent, answer: Receipt)
    requires Inv(s) && m in s.rows && ReadBundle(s.rows[m].bundle).Some? && Derived(ReadBundle(s.rows[m].bundle).value, intent)
    ensures Inv(s.(drafts := Serve(s.drafts, m, intent, answer).0))
  {
    if Lookup(s.drafts, m).None? { WriteKeepsInv(s, Draft(m, intent, answer)); }
  }

  lemma DelayKeepsInv(s: World, q: Request)
    requires Inv(s) && q.id in s.rows && ReadBundle(s.rows[q.id].bundle).Some? && Derived(ReadBundle(s.rows[q.id].bundle).value, q.intent)
    ensures Inv(s.(inFlight := s.inFlight + {q}))
  {
    var s' := s.(inFlight := s.inFlight + {q});
    forall p ensures PcOK(s', p) { assert PcOK(s, p); }
    forall p, r ensures Apart(s', p, r) { assert Apart(s, p, r); }
    forall m ensures RowReceiptOK(s', m) { assert RowReceiptOK(s, m); }
    forall m ensures DraftOK(s', m) { assert DraftOK(s, m); }
    forall r ensures FlightOK(s', r) { assert FlightOK(s, r); }
  }

  /** What the sender has once its request was served and answered. */
  lemma AnswerIsGenuine(drafts: seq<Draft>, m: Mid, intent: Intent, answer: Receipt)
    ensures var (drafts', reply) := Serve(drafts, m, intent, answer);
      reply.Ok? && ReceiptMatches(reply.value, m, intent) ==> Genuine(drafts', m, reply.value)
  {
    LookupAppend(drafts, Draft(m, intent, answer), m);
  }

  lemma SendKeepsInv(s: World, pid: int, answer: Receipt, lost: bool, delayed: bool)
    requires Inv(s)
    ensures Inv(NextSend(s, pid, answer, lost, delayed))
  {
    var pc := PcOf(s, pid);
    if pc.Sending? {
      assert PcOK(s, pid);
      var s' := NextSend(s, pid, answer, lost, delayed);
      var s1 := s.(drafts := s'.drafts, inFlight := s'.inFlight);
      if delayed {
        DelayKeepsInv(s, Request(pid, pc.claim.id, pc.intent));
      } else {
        ServeKeepsInv(s, pc.claim.id, pc.intent, answer);
        AnswerIsGenuine(s.drafts, pc.claim.id, pc.intent, answer);
      }
      assert PcOK(s1, pid);
      GotoKeepsInv(s1, pid, s'.procs[pid]);
    }
  }

  lemma ReceiptKeepsInv(s: World, c: Claim, now: int, receipt: Receipt)
    requires Inv(s) && Genuine(s.drafts, c.id, receipt)
    ensures Inv(s.(rows := Acknowledge(s.rows, c.id, c.worker, c.attempt, now, receipt).0))
  {
    AcknowledgeIsLegal(s.rows, c.id, c.worker, c.attempt, now, receipt);
    RowsForwardKeepsInv(s, Acknowledge(s.rows, c.id, c.worker, c.attempt, now, receipt).0);
  }

  lemma AckKeepsInv(s: World, pid: int, now: int)
    requires Inv(s)
    ensures Inv(NextAck(s, pid, now))
  {
    var pc := PcOf(s, pid);
    if pc.Receipted? {
      assert PcOK(s, pid);
      ReceiptKeepsInv(s, pc.claim, now, pc.receipt);
      var s1 := s.(rows := Acknowledge(s.rows, pc.claim.id, pc.claim.worker, pc.claim.attempt, now, pc.receipt).0);
      assert PcOK(s1, pid);
      GotoKeepsInv(s1, pid, NextAck(s, pid, now).procs[pid]);
    }
  }

  lemma FailKeepsInv(s: World, pid: int, now: int, retryAt: int)
    requires Inv(s)
    ensures Inv(NextFail(s, pid, now, retryAt))
  {
    var pc := PcOf(s, pid);
    if pc.Failing? {
      assert PcOK(s, pid);
      FailIsLegal(s.rows, pc.claim.id, pc.claim.worker, pc.claim.attempt, now, retryAt, pc.code);
      var rows := Fail(s.rows, pc.claim.id, pc.claim.worker, pc.claim.attempt, now, retryAt, pc.code).0;
      RowsForwardKeepsInv(s, rows);
      assert PcOK(s.(rows := rows), pid);
      GotoKeepsInv(s.(rows := rows), pid, NextFail(s, pid, now, retryAt).procs[pid]);
    }
  }

  lemma NextKeepsInv(s: World, step: Step)
    requires Inv(s) && (step.Insert? ==> FreshRow(step.row))
    ensures Inv(Next(s, step))
  {
    match step
    case Insert(row) => if row.id !in s.rows { InsertKeepsInv(s, row); }
    case ClaimStep(pid, site, worker, now, duration) =>
      if PcOf(s, pid) == Idle { ClaimKeepsInv(s, pid, site, worker, now, duration); }
    case BeatStep(pid, now) => BeatKeepsInv(s, pid, now);
    case ShapeStep(pid, context, raises) => ShapeKeepsInv(s, pid, context, raises);
    case SendStep(pid, answer, lost, delayed) => SendKeepsInv(s, pid, answer, lost, delayed);
    case ServeStep(pid, id, intent, answer) =>
      if Request(pid, id, intent) in s.inFlight {
        assert FlightOK(s, Request(pid, id, intent));
        ServeKeepsInv(s, id, intent, answer);
      }
    case AckStep(pid, now) => AckKeepsInv(s, pid, now);
    case FailStep(pid, now, retryAt) => FailKeepsInv(s, pid, now, retryAt);
    case Crash(pid) => GotoKeepsInv(s, pid, Idle);
  }

  lemma {:induction false} RunKeepsInv(s: World, steps: seq<Step>)
    requires Inv(s) && Valid(steps)
    ensures Inv(Run(s, steps))
    decreases |steps|
  {
    if steps != [] {
      NextKeepsInv(s, steps[0]);
      RunKeepsInv(Next(s, steps[0]), steps[1..]);
    }
  }

  lemma StartIsInv()
    ensures Inv(START)
  {
  }

  // ---- the guarantees ---------------------------------------------------------------------------

  predicate IsFor(drafts: seq<Draft>, i: int, m: Mid) { 0 <= i < |drafts| && drafts[i].requestId == m }

  lemma {:induction false} LookupFinds(drafts: seq<Draft>, m: Mid)
    ensures match Lookup(drafts, m)
      case None => Writes(drafts, m) == 0 && forall i :: !IsFor(drafts, i, m)
      case Some(d) => Writes(drafts, m) >= 1 && exists i :: IsFor(drafts, i, m) && drafts[i] == d
    ensures Writes(drafts, m) <= 1 ==> forall i, j :: IsFor(drafts, i, m) && IsFor(drafts, j, m) ==> i == j
  {
    if drafts != [] {
      var n := |drafts| - 1;
      LookupFinds(drafts[..n], m);
      forall i | IsFor(drafts, i, m) && i != n ensures IsFor(drafts[..n], i, m) {}
      if Lookup(drafts[..n], m).Some? {
        var i :| IsFor(drafts[..n], i, m) && drafts[..n][i] == Lookup(drafts[..n], m).value;
        assert IsFor(drafts, i, m);
      }
      assert drafts[n].requestId == m ==> IsFor(drafts, n, m);
    }
  }

  /** A receipt that names its request, the body it was asked for and that body's doctype. */
  predicate Names(r: Receipt, m: Mid, intent: Intent) {
    r.requestId == m && r.digest == intent && r.doctype == intent.doctype
  }

  /** Exactly-once effect: however the processes interleave, the server writes at most one draft
      per materialization, that draft says what the row's own proposal means in some trusted context,
      and a row that reports success has exactly one draft and holds exactly its receipt. */
  lemma ExactlyOnceEffect(steps: seq<Step>, m: Mid)
    requires Valid(steps)
    ensures var s := Run(START, steps);
      var d := Lookup(s.drafts, m);
      && Writes(s.drafts, m) <= 1
      && (forall i, j :: IsFor(s.drafts, i, m) && IsFor(s.drafts, j, m) ==> i == j)
      && (d.Some? ==> m in s.rows && ReadBundle(s.rows[m].bundle).Some? && Derived(ReadBundle(s.rows[m].bundle).value, d.value.intent)
                      && Reversible(ReadBundle(s.rows[m].bundle).value, d.value.intent)
                      && exists c :: Means(ReadBundle(s.rows[m].bundle).value, c, d.value.intent))
      && (m in s.rows && s.rows[m].status == SucceededRow ==>
            && Writes(s.drafts, m) == 1 && d.Some? && s.rows[m].receipt == Some(d.value.receipt)
            && (exists i :: IsFor(s.drafts, i, m) && s.drafts[i] == d.value) && Names(d.value.receipt, m, d.value.intent))
  {
    StartIsInv();
    RunKeepsInv(START, steps);
    var s := Run(START, steps);
    assert DraftOK(s, m) && RowReceiptOK(s, m);
    LookupFinds(s.drafts, m);
    var d := Lookup(s.drafts, m);
    if d.Some? {
      DerivedIsReversible(ReadBundle(s.rows[m].bundle).value, d.value.intent);
      DerivedIsMeant(ReadBundle(s.rows[m].bundle).value, d.value.intent);
    }
  }

  /** A process that reaches the acknowledgement never meets a conflicting receipt: the replay
      conflict of acknowledge cannot be raised. */
  lemma ReplayConflictIsUnreachable(steps: seq<Step>, pid: int, now: int)
    requires Valid(steps) && PcOf(Run(START, steps), pid).Receipted?
    ensures var s := Run(START, steps);
      var pc := PcOf(s, pid);
      var reply := Acknowledge(s.rows, pc.claim.id, pc.claim.worker, pc.claim.attempt, now, pc.receipt).1;
      reply.Ok? || reply == Err(LeaseConflictError)
  {
    StartIsInv();
    RunKeepsInv(START, steps);
    var s := Run(START, steps);
    assert PcOK(s, pid) && RowReceiptOK(s, PcOf(s, pid).claim.id);
  }

  /** What a process reports is what the outbox holds: a delivery means a succeeded row, giving up
      means a dead-lettered one, and no two processes ever work on the same attempt. */
  lemma ReportsAreTrue(steps: seq<Step>, p: int, q: int)
    requires Valid(steps)
    ensures var s := Run(START, steps);
      && (PcOf(s, p).Finished? && PcOf(s, p).outcome == Delivered ==> PcOf(s, p).claim.id in s.rows && s.rows[PcOf(s, p).claim.id].status == SucceededRow)
      && (PcOf(s, p).Finished? && PcOf(s, p).outcome == GaveUp ==> PcOf(s, p).claim.id in s.rows && s.rows[PcOf(s, p).claim.id].status == DeadLetterRow)
      && (p != q && !PcOf(s, p).Idle? && !PcOf(s, q).Idle? && PcOf(s, p).claim.id == PcOf(s, q).claim.id ==>
            PcOf(s, p).claim.attempt != PcOf(s, q).claim.attempt)
  {
    StartIsInv();
    RunKeepsInv(START, steps);
    var s := Run(START, steps);
    assert PcOK(s, p) && Apart(s, p, q);
  }

  /** Terminal rows and written drafts never change again. */
  ghost predicate Settled(s: World, s': World, m: Mid) {
    && (m in s.rows && s.rows[m].status in {SucceededRow, DeadLetterRow} ==> m in s'.rows && s'.rows[m] == s.rows[m])
    && (Lookup(s.drafts, m).Some? ==> Lookup(s'.drafts, m) == Lookup(s.drafts, m))
  }

  lemma ClaimLeavesTerminal(t: Table, site: string, worker: string, now: int, duration: int, m: Mid)
    requires TableOK(t)
    ensures var t' := ClaimNext(t, site, worker, now, duration).0;
      m in t && t[m].status in {SucceededRow, DeadLetterRow} ==> m in t' && t'[m] == t[m]
  {
    ClaimIsLegal(t, site, worker, now, duration);
    assert m in t ==> RowForward(t, ClaimNext(t, site, worker, now, duration).0, m);
  }

  lemma NextSettles(s: World, step: Step, m: Mid)
    requires Inv(s)
    ensures Settled(s, Next(s, step), m)
  {
    match step
    case Insert(row) =>
    case ClaimStep(pid, site, worker, now, duration) => ClaimLeavesTerminal(s.rows, site, worker, now, duration, m);
    case BeatStep(pid, now) =>
    case ShapeStep(pid, context, raises) =>
    case ServeStep(pid, id, intent, answer) => LookupAppend(s.drafts, Draft(id, intent, answer), m);
    case SendStep(pid, answer, lost, delayed) =>
      if PcOf(s, pid).Sending? {
        LookupAppend(s.drafts, Draft(PcOf(s, pid).claim.id, PcOf(s, pid).intent, answer), m);
      }
    case AckStep(pid, now) =>
    case FailStep(pid, now, retryAt) =>
    case Crash(pid) =>
  }

  /** Over any later run a succeeded row keeps its receipt, a dead-lettered row stays dead, and
      the server's draft for the request is the one it first wrote. */
  lemma {:induction false} SettledForever(s: World, steps: seq<Step>, m: Mid)
    requires Inv(s) && Valid(steps)
    ensures Settled(s, Run(s, steps), m)
    decreases |steps|
  {
    if steps != [] {
      NextKeepsInv(s, steps[0]);
      NextSettles(s, steps[0], m);
      SettledForever(Next(s, steps[0]), steps[1..], m);
    }
  }
}
