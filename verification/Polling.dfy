/** Durable polling: accept every delivery of a batch, then move the checkpoint by a version
    compare-and-swap. The source's deliveries are numbered; a cursor is a position in it. */
module Polling {
  import opened Wrappers

  type Cursor = Option<nat>

  /** How far a cursor has come: deliveries 0 .. Position(c) lie at or before it. */
  function Position(c: Cursor): nat { if c.Some? then c.value else 0 }

  datatype Disposition = PollOk | Retry | Pause | Rejected

  datatype Batch = Batch(expected: Cursor, candidate: Cursor, disposition: Disposition, deliveries: seq<nat>, errorCode: Option<string>)

  datatype ErrorCode = PollFailed | CandidateMismatch | AcceptFailed | CheckpointConflict | Reported(code: string)

  datatype Health = Healthy | Failing(code: ErrorCode, paused: bool)

  datatype RunResult = RunOk(accepted: nat, advanced: bool) | RunFailed(code: ErrorCode, paused: bool)

  /** What a connector promises about a batch: it starts at the cursor it was asked for, does not
      go back, and carries every eligible delivery between the two cursors. Deliveries that the
      activation filter removes are not eligible. */
  ghost predicate Complete(eligible: nat -> bool, from: Cursor, b: Batch) {
    && b.expected == from && Position(from) <= Position(b.candidate)
    && forall p :: Position(from) <= p < Position(b.candidate) && eligible(p) ==> p in b.deliveries
  }

  /** Every eligible delivery before the cursor has been durably accepted. */
  ghost predicate NothingSkipped(eligible: nat -> bool, accepted: set<nat>, c: Cursor) {
    forall p :: 0 <= p < Position(c) && eligible(p) ==> p in accepted
  }

  /** How a round ends, from what it read, what the connector returned and the stored version. */
  function Verdict(from: Cursor, atVersion: nat, storedVersion: nat, polled: Option<Batch>, failAt: Option<nat>): RunResult {
    if polled.None? then RunFailed(PollFailed, false)
    else
      var b := polled.value;
      if b.expected != from then RunFailed(CandidateMismatch, true)
      else if b.disposition != PollOk then
        RunFailed(if b.errorCode.Some? && b.errorCode.value != "" then Reported(b.errorCode.value) else PollFailed,
                  b.disposition == Pause || b.disposition == Rejected)
      else if failAt.Some? && failAt.value < |b.deliveries| then RunFailed(AcceptFailed, false)
      else if b.candidate != from && storedVersion != atVersion then RunFailed(CheckpointConflict, false)
      else RunOk(|b.deliveries|, b.candidate != from)
  }

  /** The deliveries a round accepts before it ends. */
  function AcceptedBy(from: Cursor, polled: Option<Batch>, failAt: Option<nat>): set<nat> {
    if polled.None? || polled.value.expected != from || polled.value.disposition != PollOk then {}
    else if failAt.Some? && failAt.value < |polled.value.deliveries| then set d | d in polled.value.deliveries[..failAt.value]
    else set d | d in polled.value.deliveries
  }

  // ---- one round ------------------------------------------------------------------------------

  class PollingState {
    var accepted: set<nat>
    var cursor: Cursor
    var version: nat
    var health: Health

    constructor ()
      ensures accepted == {} && cursor == None && version == 0 && health == Healthy
    {
      accepted, cursor, version, health := {}, None, 0, Healthy;
    }

    method RecordFailure(code: ErrorCode, paused: bool) returns (r: RunResult)
      modifies this`health
      ensures r == RunFailed(code, paused) && health == Failing(code, paused)
    {
      health := Failing(code, paused);
      return RunFailed(code, paused);
    }

    /** Compare-and-swap on the version. */
    method AdvanceCheckpoint(expectedVersion: nat, to: Cursor) returns (ok: bool)
      modifies this`cursor, this`version
      ensures ok <==> old(version) == expectedVersion
      ensures if ok then cursor == to && version == old(version) + 1 else cursor == old(cursor) && version == old(version)
    {
      if version != expectedVersion {
        return false;
      }
      cursor, version := to, version + 1;
      return true;
    }

    /** _run_leased. `from` and `atVersion` were read when the lease was taken, `polled` is None when
        the connector raised, and accepting delivery number `failAt` raises. The stored checkpoint
        may meanwhile have been moved by a competitor. */
    method RunLeased(from: Cursor, atVersion: nat, polled: Option<Batch>, failAt: Option<nat>, ghost eligible: nat -> bool)
      returns (r: RunResult)
      modifies this
      ensures r == Verdict(from, atVersion, old(version), polled, failAt)
      ensures accepted == old(accepted) + AcceptedBy(from, polled, failAt)
      ensures health == if r.RunOk? then Healthy else Failing(r.code, r.paused)
      ensures if r.RunOk? && r.advanced then cursor == polled.value.candidate && version == old(version) + 1
              else cursor == old(cursor) && version == old(version)
      ensures && NothingSkipped(eligible, old(accepted), old(cursor))
              && (old(version) == atVersion ==> old(cursor) == from)
              && (polled.Some? && polled.value.expected == from && polled.value.disposition == PollOk ==> Complete(eligible, from, polled.value))
              ==> NothingSkipped(eligible, accepted, cursor)
    {
      if polled.None? {
        r := RecordFailure(PollFailed, false);
        return;
      }
      var batch := polled.value;
      if batch.expected != from {
        r := RecordFailure(CandidateMismatch, true);
        return;
      }
      if batch.disposition != PollOk {
        r := RecordFailure(if batch.errorCode.Some? && batch.errorCode.value != "" then Reported(batch.errorCode.value) else PollFailed,
                           batch.disposition == Pause || batch.disposition == Rejected);
        return;
      }
      var count := 0;
      for i := 0 to |batch.deliveries|
        invariant count == i && cursor == old(cursor) && version == old(version)
        invariant accepted == old(accepted) + (set d | d in batch.deliveries[..i])
        invariant failAt.Some? ==> failAt.value >= i
      {
        if failAt == Some(i) {
          assert batch.deliveries[..i] == polled.value.deliveries[..failAt.value];
          r := RecordFailure(AcceptFailed, false);
          return;
        }
        assert batch.deliveries[..i+1] == batch.deliveries[..i] + [batch.deliveries[i]];
        accepted := accepted + {batch.deliveries[i]};
        count := count + 1;
      }
      assert batch.deliveries[..|batch.deliveries|] == batch.deliveries;
      var advanced := batch.candidate != from;
      if advanced {
        var ok := AdvanceCheckpoint(atVersion, batch.candidate);
        if !ok {
          r := RecordFailure(CheckpointConflict, false);
          return;
        }
      }
      health := Healthy;
      return RunOk(count, advanced);
    }
  }

  // ---- competing pollers ----------------------------------------------------------------------

  /** Where a poller stands in its round. */
  datatype Poller =
    | Idle
    | Leased(from: Cursor, atVersion: nat)
    | Accepting(from: Cursor, atVersion: nat, batch: Batch, done: nat)

  datatype World = World(accepted: set<nat>, cursor: Cursor, version: nat, pollers: map<string, Poller>)

  datatype Step =
    | Lease(who: string)
    | Poll(who: string, batch: Batch)
    | Accept(who: string)
    | Advance(who: string)
    /** A poll failure, an accept failure, a lost lease or a crash. */
    | GiveUp(who: string)

  function At(w: World, who: string): Poller { if who in w.pollers then w.pollers[who] else Idle }

  function Move(w: World, who: string, p: Poller): World { w.(pollers := w.pollers[who := p]) }

  /** One step of one poller; a step that is not enabled changes nothing. */
  ghost function Apply(eligible: nat -> bool, w: World, step: Step): World {
    var p := At(w, step.who);
    match step
    case Lease(who) => if p.Idle? then Move(w, who, Leased(w.cursor, w.version)) else w
    case Poll(who, b) => if p.Leased? && Complete(eligible, p.from, b) then Move(w, who, Accepting(p.from, p.atVersion, b, 0)) else w
    case Accept(who) =>
      if p.Accepting? && p.done < |p.batch.deliveries| then
        Move(w, who, p.(done := p.done + 1)).(accepted := w.accepted + {p.batch.deliveries[p.done]})
      else w
    case Advance(who) =>
      if p.Accepting? && p.done == |p.batch.deliveries| then
        if p.batch.candidate != p.from && p.atVersion == w.version
        then Move(w, who, Idle).(cursor := p.batch.candidate, version := w.version + 1)
        else Move(w, who, Idle)
      else w
    case GiveUp(who) => Move(w, who, Idle)
  }

  ghost function Run(eligible: nat -> bool, w: World, steps: seq<Step>): World
    decreases |steps|
  {
    if steps == [] then w else Run(eligible, Apply(eligible, w, steps[0]), steps[1..])
  }

  const START: World := World({}, None, 0, map[])

  /** A poller's view is not ahead of the store, agrees with it while the version still matches, and
      what it counted as accepted is accepted. */
  ghost predicate PollerOK(eligible: nat -> bool, w: World, who: string) {
    match At(w, who)
    case Idle => true
    case Leased(from, v) => v <= w.version && (v == w.version ==> from == w.cursor)
    case Accepting(from, v, b, done) =>
      && v <= w.version && (v == w.version ==> from == w.cursor)
      && Complete(eligible, from, b) && done <= |b.deliveries|
      && forall i :: 0 <= i < done ==> b.deliveries[i] in w.accepted
  }

  ghost predicate Inv(eligible: nat -> bool, w: World) {
    && NothingSkipped(eligible, w.accepted, w.cursor)
    && forall who {:trigger PollerOK(eligible, w, who)} :: PollerOK(eligible, w, who)
  }

  lemma AdvanceSkipsNothing(eligible: nat -> bool, w: World, p: Poller)
    requires p.Accepting? && p.done == |p.batch.deliveries| && p.from == w.cursor
    requires NothingSkipped(eligible, w.accepted, w.cursor) && Complete(eligible, p.from, p.batch)
    requires forall i :: 0 <= i < p.done ==> p.batch.deliveries[i] in w.accepted
    ensures NothingSkipped(eligible, w.accepted, p.batch.candidate)
  {
    forall q | 0 <= q < Position(p.batch.candidate) && eligible(q) ensures q in w.accepted {
      if q >= Position(w.cursor) {
        var i :| 0 <= i < |p.batch.deliveries| && p.batch.deliveries[i] == q;
      }
    }
  }

  /** A step never takes back an acceptance, never moves the checkpoint back, and moves it only by
      an advance whose version still matched. */
  ghost predicate Progress(w: World, w': World, step: Step) {
    && w.accepted <= w'.accepted && w.version <= w'.version && Position(w.cursor) <= Position(w'.cursor)
    && ((w'.cursor != w.cursor || w'.version != w.version) ==>
          && step.Advance? && w'.version == w.version + 1
          && At(w, step.who).Accepting? && At(w, step.who).atVersion == w.version)
  }

  lemma ApplyKeepsInv(eligible: nat -> bool, w: World, step: Step)
    requires Inv(eligible, w)
    ensures Inv(eligible, Apply(eligible, w, step)) && Progress(w, Apply(eligible, w, step), step)
  {
    var w' := Apply(eligible, w, step);
    assert PollerOK(eligible, w, step.who);
    if w'.cursor != w.cursor || w'.version != w.version {
      AdvanceSkipsNothing(eligible, w, At(w, step.who));
    }
    forall who ensures PollerOK(eligible, w', who) {
      assert PollerOK(eligible, w, who);
    }
  }

  lemma {:induction false} RunKeepsInv(eligible: nat -> bool, w: World, steps: seq<Step>)
    requires Inv(eligible, w)
    ensures var w' := Run(eligible, w, steps);
      && Inv(eligible, w')
      && w.accepted <= w'.accepted && w.version <= w'.version && Position(w.cursor) <= Position(w'.cursor)
    decreases |steps|
  {
    if steps != [] {
      ApplyKeepsInv(eligible, w, steps[0]);
      RunKeepsInv(eligible, Apply(eligible, w, steps[0]), steps[1..]);
    }
  }

  lemma StartIsInv(eligible: nat -> bool)
    ensures Inv(eligible, START)
  {
  }

  /** From the start, over every run of competing pollers, every eligible delivery at or before the
      stored checkpoint has been durably accepted, and no later run moves the checkpoint back or takes
      an acceptance back. */
  lemma PollingNeverSkips(eligible: nat -> bool, steps: seq<Step>, later: seq<Step>)
    ensures var w := Run(eligible, START, steps);
      var w' := Run(eligible, w, later);
      && NothingSkipped(eligible, w.accepted, w.cursor)
      && w.accepted <= w'.accepted && w.version <= w'.version && Position(w.cursor) <= Position(w'.cursor)
  {
    StartIsInv(eligible);
    RunKeepsInv(eligible, START, steps);
    RunKeepsInv(eligible, Run(eligible, START, steps), later);
  }

  // ---- a round is a run of steps --------------------------------------------------------------

  /** How many deliveries a round accepts before it ends. */
  function AcceptCount(polled: Option<Batch>, failAt: Option<nat>): nat {
    if polled.None? then 0
    else if failAt.Some? && failAt.value < |polled.value.deliveries| then failAt.value
    else |polled.value.deliveries|
  }

  /** The round polled a batch it goes on with. */
  predicate Usable(from: Cursor, polled: Option<Batch>) {
    polled.Some? && polled.value.expected == from && polled.value.disposition == PollOk
  }

  /** The steps of _run_leased after the lease, as its inputs determine them. */
  function RoundSteps(who: string, from: Cursor, polled: Option<Batch>, failAt: Option<nat>): seq<Step> {
    if !Usable(from, polled) then [GiveUp(who)]
    else
      [Poll(who, polled.value)] + seq(AcceptCount(polled, failAt), _ => Accept(who))
      + [if AcceptCount(polled, failAt) < |polled.value.deliveries| then GiveUp(who) else Advance(who)]
  }

  lemma {:induction false} RunSplit(eligible: nat -> bool, w: World, xs: seq<Step>, ys: seq<Step>)
    ensures Run(eligible, w, xs + ys) == Run(eligible, Run(eligible, w, xs), ys)
    decreases |xs|
  {
    if xs == [] {
      assert xs + ys == ys;
    } else {
      assert (xs + ys)[1..] == xs[1..] + ys;
      RunSplit(eligible, Apply(eligible, w, xs[0]), xs[1..], ys);
    }
  }

  lemma OneStep(eligible: nat -> bool, w: World, step: Step)
    ensures Run(eligible, w, [step]) == Apply(eligible, w, step)
  {
    assert [step][1..] == [];
  }

  function Elements(xs: seq<nat>): set<nat> { set d | d in xs }

  lemma ElementsCons(xs: seq<nat>, from: nat, to: nat)
    requires from < to <= |xs|
    ensures Elements(xs[from..to]) == {xs[from]} + Elements(xs[from + 1..to])
  {
    assert xs[from..to] == [xs[from]] + xs[from + 1..to];
  }

  /** The world once a poller has accepted its next `n` deliveries. */
  function AfterAccepts(w: World, who: string, n: nat): World
    requires At(w, who).Accepting? && At(w, who).done + n <= |At(w, who).batch.deliveries|
  {
    var p := At(w, who);
    if n == 0 then w
    else World(w.accepted + Elements(p.batch.deliveries[p.done..p.done + n]), w.cursor, w.version, w.pollers[who := p.(done := p.done + n)])
  }

  lemma AcceptedGrow(accepted: set<nat>, xs: seq<nat>, from: nat, to: nat)
    requires from < to <= |xs|
    ensures accepted + {xs[from]} + Elements(xs[from + 1..to]) == accepted + Elements(xs[from..to])
  {
    ElementsCons(xs, from, to);
  }

  /** The world once a poller has accepted its next delivery. */
  function NextAccepted(w: World, who: string): World
    requires At(w, who).Accepting? && At(w, who).done < |At(w, who).batch.deliveries|
  {
    var p := At(w, who);
    World(w.accepted + {p.batch.deliveries[p.done]}, w.cursor, w.version, w.pollers[who := p.(done := p.done + 1)])
  }

  lemma AcceptOne(w: World, who: string, n: nat)
    requires At(w, who).Accepting? && n > 0 && At(w, who).done + n <= |At(w, who).batch.deliveries|
    ensures At(NextAccepted(w, who), who) == At(w, who).(done := At(w, who).done + 1)
    ensures AfterAccepts(NextAccepted(w, who), who, n - 1) == AfterAccepts(w, who, n)
  {
    var p, w1 := At(w, who), NextAccepted(w, who);
    AcceptedGrow(w.accepted, p.batch.deliveries, p.done, p.done + n);
    var left, right := AfterAccepts(w1, who, n - 1), AfterAccepts(w, who, n);
    assert left.pollers == right.pollers;
    if n == 1 { assert Elements(p.batch.deliveries[p.done + 1..p.done + 1]) == {}; }
    assert left.accepted == right.accepted;
  }

  lemma {:induction false} AcceptRun(eligible: nat -> bool, w: World, who: string, n: nat)
    requires At(w, who).Accepting? && At(w, who).done + n <= |At(w, who).batch.deliveries|
    ensures Run(eligible, w, seq(n, _ => Accept(who))) == AfterAccepts(w, who, n)
    decreases n
  {
    if n > 0 {
      var steps := seq(n, _ => Accept(who));
      assert steps[0] == Accept(who) && steps[1..] == seq(n - 1, _ => Accept(who));
      assert Apply(eligible, w, Accept(who)) == NextAccepted(w, who);
      AcceptOne(w, who, n);
      AcceptRun(eligible, NextAccepted(w, who), who, n - 1);
    }
  }

  /** A round of one poller, without a competitor's step in between, moves the world exactly as
      RunLeased moves the state: the same acceptances, and the checkpoint moves exactly when the round
      reports that it advanced. */
  lemma RoundIsARun(eligible: nat -> bool, w: World, who: string, polled: Option<Batch>, failAt: Option<nat>)
    requires At(w, who).Leased?
    requires Usable(At(w, who).from, polled) ==> Complete(eligible, At(w, who).from, polled.value)
    ensures var p := At(w, who);
      var w' := Run(eligible, w, RoundSteps(who, p.from, polled, failAt));
      var r := Verdict(p.from, p.atVersion, w.version, polled, failAt);
      && w'.pollers == w.pollers[who := Idle]
      && w'.accepted == w.accepted + AcceptedBy(p.from, polled, failAt)
      && (if r.RunOk? && r.advanced then w'.cursor == polled.value.candidate && w'.version == w.version + 1
          else w'.cursor == w.cursor && w'.version == w.version)
  {
    var p := At(w, who);
    if !Usable(p.from, polled) {
      OneStep(eligible, w, GiveUp(who));
    } else {
      UsableRound(eligible, w, who, polled.value, AcceptCount(polled, failAt));
      assert polled.value.deliveries[..|polled.value.deliveries|] == polled.value.deliveries;
    }
  }

  lemma UsableRound(eligible: nat -> bool, w: World, who: string, b: Batch, n: nat)
    requires At(w, who).Leased? && Complete(eligible, At(w, who).from, b) && n <= |b.deliveries|
    ensures var p, last := At(w, who), if n < |b.deliveries| then GiveUp(who) else Advance(who);
      var w' := Run(eligible, w, [Poll(who, b)] + seq(n, _ => Accept(who)) + [last]);
      && w'.pollers == w.pollers[who := Idle]
      && w'.accepted == w.accepted + (set d | d in b.deliveries[..n])
      && (if last.Advance? && b.candidate != p.from && p.atVersion == w.version then w'.cursor == b.candidate && w'.version == w.version + 1
          else w'.cursor == w.cursor && w'.version == w.version)
  {
    var p, last := At(w, who), if n < |b.deliveries| then GiveUp(who) else Advance(who);
    var w1 := Apply(eligible, w, Poll(who, b));
    var accepts := seq(n, _ => Accept(who));
    OneStep(eligible, w, Poll(who, b));
    RunSplit(eligible, w, [Poll(who, b)], accepts);
    RunSplit(eligible, w, [Poll(who, b)] + accepts, [last]);
    AcceptRun(eligible, w1, who, n);
    OneStep(eligible, Run(eligible, w1, accepts), last);
    assert b.deliveries[0..n] == b.deliveries[..n];
  }
}
