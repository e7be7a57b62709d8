/** The completion of module TaskBundleExample seen from the outbox: its row holds up every other row
    of the site. */
module BlockedSiteExample {
  import opened Wrappers
  import opened TaskModel
  import TaskSpec
  import TaskRuns
  import opened ProposalBundle
  import opened TaskBundles
  import opened TaskBundleExample
  import opened Outbox
  import opened MaterializationProtocol
  import opened MaterializationTheorems

  /** The outbox row that a completion inserts. */
  function RowFor(id: Mid, s: TaskSpec.State, k: AttemptKey): Row
    requires k in s.proposals && k in s.outbox && TaskKey(k.site, k.task) in s.tasks
  {
    var o := s.outbox[k];
    Row(id, o.site, BundleOf(s, k), o.createdAt, o.maxAttempts, o.status, o.attempt, None, None, o.createdAt, None, None, o.createdAt)
  }

  lemma RowForIsFresh(id: Mid)
    ensures var s := TaskRuns.Run(TaskSpec.EMPTY, MIXED);
      && MIXED_KEY in s.proposals && MIXED_KEY in s.outbox && TaskKey("s", "x") in s.tasks
      && FreshRow(RowFor(id, s, MIXED_KEY)) && !Readable(RowFor(id, s, MIXED_KEY).bundle) && RowFor(id, s, MIXED_KEY).site == "s"
  {
    MixedModelsAreAcceptedButUnreadable();
    MixedRowIsPending();
  }

  /** The world after both rows have been inserted. */
  lemma TwoInserted(bad: Row, good: Row) returns (s: World)
    requires FreshRow(bad) && FreshRow(good) && bad.id != good.id && bad.site == good.site && RowBefore(bad, good)
    requires !Readable(bad.bundle)
    ensures s == Run(START, [Insert(bad), Insert(good)]) && Inv(s)
    ensures s.rows == map[bad.id := bad, good.id := good] && Stuck(s, bad.id) && LeastOfSite(s.rows, bad.id)
  {
    var steps := [Insert(bad), Insert(good)];
    StartIsInv();
    assert steps[1..] == [Insert(good)] && steps[1..][1..] == [];
    RunKeepsInv(START, steps);
    s := Run(START, steps);
    var s1 := Next(START, Insert(bad));
    assert s1.rows == map[bad.id := bad];
    assert Run(s1, [Insert(good)]) == Run(Next(s1, Insert(good)), []);
    RowBeforeIsTotalOrder(bad, bad, bad);
  }

  /** However often and by whomever the site is asked for work, once the row is due, the readable row
      behind it is never attempted. */
  lemma MixedModelsBlockTheSite(id: Mid, good: Row, claims: seq<Step>)
    requires FreshRow(good) && good.id != id && good.site == "s"
    requires var s := TaskRuns.Run(TaskSpec.EMPTY, MIXED);
      && MIXED_KEY in s.proposals && MIXED_KEY in s.outbox && TaskKey("s", "x") in s.tasks
      && RowBefore(RowFor(id, s, MIXED_KEY), good) && OnlyClaims(claims, RowFor(id, s, MIXED_KEY))
    ensures var s := TaskRuns.Run(TaskSpec.EMPTY, MIXED);
      var w := Run(Run(START, [Insert(RowFor(id, s, MIXED_KEY)), Insert(good)]), claims);
      good.id in w.rows && w.rows[good.id].attempt == 0
  {
    var bad := RowFor(id, TaskRuns.Run(TaskSpec.EMPTY, MIXED), MIXED_KEY);
    RowForIsFresh(id);
    var s := TwoInserted(bad, good);
    ClaimsNeverPassTheHead(s, claims, id);
    LeastHeadsThroughout(s, claims, id);
    RunKeepsSites(s, claims, good.id);
  }
}
