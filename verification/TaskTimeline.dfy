/** The timeline read as an event log: what folding it yields, which logs can occur, and what
    that bounds. */
module TaskTimeline {
  import opened Wrappers
  import opened TaskModel

  /** What a task's log says about it. */
  datatype View = View(status: TaskStatus, attempt: int, owner: Option<string>)

  function Advance(v: View, e: Event): View {
    match e.kind
    case Created => View(Queued, 0, None)
    case LeasedEvent => View(Leased, v.attempt + 1, e.actorRef)
    case RunningEvent => v.(status := Running)
    case RecheckScheduled => View(Recheck, v.attempt, None)
    case SucceededEvent => View(Succeeded, v.attempt, None)
    case DeadLettered => View(DeadLetter, v.attempt, None)
  }

  function Fold(log: seq<Event>): View {
    if log == [] then View(Queued, 0, None)
    else Advance(Fold(log[..|log|-1]), log[|log|-1])
  }

  predicate Allowed(status: TaskStatus, kind: EventType) {
    match kind
    case Created => false
    case LeasedEvent => status in {Queued, Recheck, Leased, Running}
    case RunningEvent => status == Leased
    case _ => status in {Leased, Running}
  }

  predicate Legal(log: seq<Event>) {
    log != [] &&
    if |log| == 1 then log[0].kind == Created
    else Legal(log[..|log|-1]) && Allowed(Fold(log[..|log|-1]).status, log[|log|-1].kind)
  }

  predicate TerminalKind(kind: EventType) { kind == SucceededEvent || kind == DeadLettered }

  function LeaseCount(log: seq<Event>): nat {
    if log == [] then 0
    else LeaseCount(log[..|log|-1]) + if log[|log|-1].kind == LeasedEvent then 1 else 0
  }

  lemma FoldSnoc(log: seq<Event>, e: Event)
    requires Legal(log)
    ensures Fold(log + [e]) == Advance(Fold(log), e)
    ensures Legal(log + [e]) <==> Allowed(Fold(log).status, e.kind)
  {
    assert (log + [e])[..|log|] == log;
  }

  /** The attempt a legal log folds to is its number of leases, and each lease accounts for at
      most three events: leased, running, and one that ends the attempt. */
  lemma {:induction false} LegalLogIsBounded(log: seq<Event>)
    requires Legal(log)
    ensures Fold(log).attempt == LeaseCount(log)
    ensures match Fold(log).status
      case Queued => |log| == 1 && Fold(log).attempt == 0
      case Leased => Fold(log).attempt >= 1 && |log| <= 3 * Fold(log).attempt - 1
      case Running => Fold(log).attempt >= 1 && |log| <= 3 * Fold(log).attempt
      case _ => Fold(log).attempt >= 1 && |log| <= 3 * Fold(log).attempt + 1
  {
    if |log| > 1 {
      LegalLogIsBounded(log[..|log|-1]);
    } else {
      assert log[..0] == [];
    }
  }

  lemma {:induction false} TerminalEventIsLast(log: seq<Event>, i: nat)
    requires Legal(log) && i < |log| && TerminalKind(log[i].kind)
    ensures i == |log| - 1
  {
    if i < |log| - 1 {
      var shorter := log[..|log|-1];
      assert shorter[i] == log[i];
      TerminalEventIsLast(shorter, i);
    }
  }

  predicate EventOf(e: Event, i: nat, t: Task) {
    && e.sequence == i && e.taskId == t.taskId && e.site == t.content.site
    && e.causation == t.content.causation && e.correlation == t.content.correlation
    && (e.actorType == Worker <==> e.actorRef.Some?)
  }

  /** The log and the task tell the same story. */
  predicate Faithful(log: seq<Event>, t: Task) {
    && Legal(log)
    && Fold(log) == View(t.status, t.attempt, t.leaseOwner)
    && forall i :: 0 <= i < |log| ==> EventOf(log[i], i, t)
  }

  /** One more legal event keeps the log faithful to the task it describes. */
  lemma FaithfulSnoc(log: seq<Event>, t: Task, t': Task, e: Event)
    requires Faithful(log, t)
    requires t'.taskId == t.taskId && t'.content == t.content
    requires EventOf(e, |log|, t')
    requires Allowed(t.status, e.kind)
    requires Advance(View(t.status, t.attempt, t.leaseOwner), e) == View(t'.status, t'.attempt, t'.leaseOwner)
    ensures Faithful(log + [e], t')
  {
    FoldSnoc(log, e);
    forall i | 0 <= i < |log + [e]| ensures EventOf((log + [e])[i], i, t') {
      if i < |log| { assert EventOf(log[i], i, t); }
    }
  }
}
