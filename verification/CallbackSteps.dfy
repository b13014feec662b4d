/** The callbacks of the Driver class, run without interruption, are runs of the simulator's transition system. */
module CallbackSteps {
  import opened Simulator
  import opened SimulatorRuns
  import opened ClusterCapacity

  lemma Cons(s: Sim, a: Action, acts: seq<Action>)
    requires Enabled(s, a) && Runs(Apply(s, a), acts)
    ensures Runs(s, [a] + acts) && Exec(s, [a] + acts) == Exec(Apply(s, a), acts)
  {
    assert ([a] + acts)[1..] == acts;
  }

  lemma Single(s: Sim, a: Action)
    requires Enabled(s, a)
    ensures Runs(s, [a]) && Exec(s, [a]) == Apply(s, a)
  {
    assert [a][1..] == [];
  }

  /** The deferred part when no pod is left: it ends about to send the stop token. */
  lemma StopIsRun(s: Sim, bind: bool) returns (acts: seq<Action>)
    requires !s.fault && s.threads == [TNext(bind)] && s.core.queue == []
    ensures Runs(s, acts)
    ensures Exec(s, acts) == s.(threads := [TSend], core := FinishCore(s.core, bind).0,
                                closes := if s.core.closed then s.closes else s.closes + 1)
  {
    var s1 := s.(threads := [TReason(bind)]);
    var s2 := s.(threads := [TClose], core := s.core.(stopReason := Reason(bind)));
    assert Apply(s, Pop(0)) == s1;
    assert Apply(s1, SetReason(0)) == s2;
    Single(s2, Close(0));
    Cons(s1, SetReason(0), [Close(0)]);
    Cons(s, Pop(0), [SetReason(0)] + [Close(0)]);
    acts := [Pop(0)] + ([SetReason(0)] + [Close(0)]);
  }

  /** The deferred part: it ends with the next pod given, or about to send the stop token. */
  lemma FinishIsRun(s: Sim, bind: bool) returns (acts: seq<Action>)
    requires !s.fault && s.threads == [TNext(bind)] && s.given == []
    ensures Runs(s, acts)
    ensures var t := Exec(s, acts);
            && t.core == FinishCore(s.core, bind).0
            && (if FinishCore(s.core, bind).1 then t.threads == [TSend] && t.given == []
                else t.threads == [] && t.given == [s.core.queue[|s.core.queue| - 1]])
  {
    if s.core.queue == [] {
      acts := StopIsRun(s, bind);
    } else {
      Single(Apply(s, Pop(0)), AddNext(0));
      Cons(s, Pop(0), [AddNext(0)]);
      acts := [Pop(0)] + [AddNext(0)];
    }
  }

  /** Bind of the pod with the scheduler. */
  lemma BindIsRun(s: Sim, node: string) returns (acts: seq<Action>)
    requires OneInv(s) && PodKeyFound(s) && !s.fault && s.given != []
    ensures Runs(s, acts) && Exec(s, acts).core == BindCore(s.core, s.given[0], node).0
    ensures BindCore(s.core, s.given[0], node).1 <==> Exec(s, acts).threads == [TSend]
  {
    BindShape(s, 0, node);
    var s1 := Apply(s, Simulator.Bind(0, node));
    OneStep(s, Simulator.Bind(0, node));
    RecordShape(s1, 0, AppendSuccess(0));
    var s2 := Apply(s1, AppendSuccess(0));
    var rest := FinishIsRun(s2, true);
    Cons(s1, AppendSuccess(0), rest);
    Cons(s, Simulator.Bind(0, node), [AppendSuccess(0)] + rest);
    acts := [Simulator.Bind(0, node)] + ([AppendSuccess(0)] + rest);
  }

  /** Update of the pod with the scheduler, after its failure event was recorded. */
  lemma UpdateIsRun(s: Sim) returns (acts: seq<Action>)
    requires OneInv(s) && !s.fault && s.threads != [] && s.threads[0].TEvented?
    ensures Runs(s, acts) && Exec(s, acts).core == UpdateCore(s.core, s.threads[0].pod, UNSCHEDULABLE).0
    ensures UpdateCore(s.core, s.threads[0].pod, UNSCHEDULABLE).1 <==> Exec(s, acts).threads == [TSend]
  {
    RecordShape(s, 0, UpdateFailure(0));
    var s1 := Apply(s, UpdateFailure(0));
    var rest := FinishIsRun(s1, false);
    Cons(s, UpdateFailure(0), rest);
    acts := [UpdateFailure(0)] + rest;
  }
}
