/** No interleaving goes on for ever, whatever the configuration: also where the failure test of get schedules batches
    too often, every leftover that is passed on is shorter. */
module QuorumTermination {
  import opened Common
  import opened QuorumProtocol

  /** The most steps that scheduling `n` leftover nodes can lead to: one to send the batch, and for each of its nodes
      one to record, one to act, and the steps of another scheduling command for what is left. */
  function Work(cfg: Config, n: nat): nat
    requires cfg.batchSize >= 1
  {
    1 + Min(cfg.batchSize, n) * (2 + if n <= cfg.batchSize then 0 else Work(cfg, n - cfg.batchSize))
  }

  function Next(cfg: Config, leftover: seq<Node>): nat
    requires cfg.batchSize >= 1
  {
    if leftover == [] then 0 else Work(cfg, |leftover|)
  }

  function ContactWork(cfg: Config, cs: seq<Contact>): nat
    requires cfg.batchSize >= 1
  {
    if cs == [] then 0 else ContactWork(cfg, cs[..|cs| - 1]) + 2 + Next(cfg, cs[|cs| - 1].leftover)
  }

  function ScheduleWork(cfg: Config, ss: seq<seq<Node>>): nat
    requires cfg.batchSize >= 1
  {
    if ss == [] then 0 else ScheduleWork(cfg, ss[..|ss| - 1]) + Work(cfg, |ss[|ss| - 1]|)
  }

  ghost function SnapshotWork(cfg: Config, ss: set<Snapshot>): nat
    requires cfg.batchSize >= 1
  {
    if ss == {} then 0
    else
      var s :| s in ss;
      1 + Next(cfg, s.leftover) + SnapshotWork(cfg, ss - {s})
  }

  ghost function TotalWork(cfg: Config, st: State): nat
    requires cfg.batchSize >= 1
  {
    ContactWork(cfg, st.outstanding) + SnapshotWork(cfg, st.snapshots) + ScheduleWork(cfg, st.schedules)
  }

  lemma {:induction false} ContactRemoved(cfg: Config, cs: seq<Contact>, i: nat)
    requires cfg.batchSize >= 1 && i < |cs|
    ensures ContactWork(cfg, cs) == ContactWork(cfg, Remove(cs, i)) + 2 + Next(cfg, cs[i].leftover)
    decreases |cs|
  {
    var front := cs[..|cs| - 1];
    if i < |front| {
      ContactRemoved(cfg, front, i);
      assert Remove(cs, i)[..|cs| - 2] == Remove(front, i);
    } else {
      assert Remove(cs, i) == front;
    }
  }

  lemma {:induction false} ScheduleRemoved(cfg: Config, ss: seq<seq<Node>>, i: nat)
    requires cfg.batchSize >= 1 && i < |ss|
    ensures ScheduleWork(cfg, ss) == ScheduleWork(cfg, Remove(ss, i)) + Work(cfg, |ss[i]|)
    decreases |ss|
  {
    var front := ss[..|ss| - 1];
    if i < |front| {
      ScheduleRemoved(cfg, front, i);
      assert Remove(ss, i)[..|ss| - 2] == Remove(front, i);
    } else {
      assert Remove(ss, i) == front;
    }
  }

  lemma {:induction false} SnapshotRemoved(cfg: Config, ss: set<Snapshot>, s: Snapshot)
    requires cfg.batchSize >= 1 && s in ss
    ensures SnapshotWork(cfg, ss) == 1 + Next(cfg, s.leftover) + SnapshotWork(cfg, ss - {s})
    decreases |ss|
  {
    var t :| t in ss && SnapshotWork(cfg, ss) == 1 + Next(cfg, t.leftover) + SnapshotWork(cfg, ss - {t});
    if t != s {
      SnapshotRemoved(cfg, ss - {t}, s);
      SnapshotRemoved(cfg, ss - {s}, t);
      assert ss - {t} - {s} == ss - {s} - {t};
    }
  }

  lemma SnapshotAdded(cfg: Config, ss: set<Snapshot>, s: Snapshot)
    requires cfg.batchSize >= 1
    ensures SnapshotWork(cfg, ss + {s}) <= 1 + Next(cfg, s.leftover) + SnapshotWork(cfg, ss)
  {
    if s in ss {
      assert ss + {s} == ss;
    } else {
      SnapshotRemoved(cfg, ss + {s}, s);
      assert ss + {s} - {s} == ss;
    }
  }

  lemma {:induction false} ContactsAdded(cfg: Config, cs: seq<Contact>, nodes: seq<Node>, leftover: seq<Node>)
    requires cfg.batchSize >= 1
    ensures ContactWork(cfg, cs + Contacts(nodes, leftover))
      == ContactWork(cfg, cs) + |nodes| * (2 + Next(cfg, leftover))
    decreases |nodes|
  {
    if nodes == [] {
      assert cs + Contacts(nodes, leftover) == cs;
    } else {
      var front := nodes[..|nodes| - 1];
      ContactsAdded(cfg, cs, front, leftover);
      hide Next;
      ContactAppended(cfg, cs + Contacts(front, leftover), Contact(nodes[|nodes| - 1], leftover));
      assert cs + Contacts(nodes, leftover) == cs + Contacts(front, leftover) + [Contact(nodes[|nodes| - 1], leftover)];
      OneMoreTimes(|front|, 2 + Next(cfg, leftover));
    }
  }

  lemma ContactAppended(cfg: Config, cs: seq<Contact>, c: Contact)
    requires cfg.batchSize >= 1
    ensures ContactWork(cfg, cs + [c]) == ContactWork(cfg, cs) + 2 + Next(cfg, c.leftover)
  {
    assert (cs + [c])[..|cs|] == cs;
  }

  lemma OneMoreTimes(n: nat, w: nat)
    ensures (n + 1) * w == n * w + w
  {
  }

  lemma StepDecreasesWork(cfg: Config, st: State, step: Step)
    requires cfg.batchSize >= 1 && Enabled(cfg, st, step)
    ensures TotalWork(cfg, Apply(cfg, st, step)) < TotalWork(cfg, st)
  {
    hide ContactWork, ScheduleWork, SnapshotWork, CountCompleted;
    match step
    case Record(i, status, answer) =>
      var responses := st.responses + [Response(status, answer)];
      CountBound(responses);
      ContactRemoved(cfg, st.outstanding, i);
      SnapshotAdded(cfg, st.snapshots, TakeSnapshot(responses, st.outstanding[i].leftover));
    case Act(s) =>
      SnapshotRemoved(cfg, st.snapshots, s);
      var schedules := st.schedules + [s.leftover];
      ScheduleRemoved(cfg, schedules, |st.schedules|);
      assert Remove(schedules, |st.schedules|) == st.schedules;
    case Dispatch(j) =>
      var leftover := st.schedules[j];
      ScheduleRemoved(cfg, st.schedules, j);
      ContactsAdded(cfg, st.outstanding, CurrentBatch(cfg, leftover), NextLeftover(cfg, leftover));
      assert |CurrentBatch(cfg, leftover)| == Min(cfg.batchSize, |leftover|);
      hide Contacts;
  }

  lemma {:induction false} RunIsBoundedByWork(cfg: Config, st: State, steps: seq<Step>)
    requires cfg.batchSize >= 1 && CanRun(cfg, st, steps)
    ensures |steps| <= TotalWork(cfg, st)
    decreases |steps|
  {
    if steps != [] {
      StepDecreasesWork(cfg, st, steps[0]);
      hide Apply, TotalWork;
      RunIsBoundedByWork(cfg, Apply(cfg, st, steps[0]), steps[1..]);
    }
  }

  /** Every run of every configuration ends, also of those in which a get acts too early. */
  lemma EveryRunEnds(cfg: Config, steps: seq<Step>)
    requires cfg.batchSize >= 1 && CanRun(cfg, Init(cfg), steps)
    ensures |steps| <= Work(cfg, |cfg.nodes|)
  {
    RunIsBoundedByWork(cfg, Init(cfg), steps);
    assert [cfg.nodes][..0] == [];
    assert ScheduleWork(cfg, []) == 0;
    assert ScheduleWork(cfg, [cfg.nodes]) == Work(cfg, |cfg.nodes|);
  }
}
