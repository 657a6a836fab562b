/**
 * What the network does for a call, over whole runs: when it is served, when it is cut off, that it can
 * always succeed while its server is reachable, that a crashed server can always be restarted, and that
 * what an acknowledged handler saved is kept.
 */
module LabCalls {
  import opened LabRpc

  // ----- what the tables hold -----

  /** What was last asked for the end `e`: enabled or not, not if it was deleted. */
  predicate EnabledBy(acts: seq<Action>, e: nat) {
    acts != [] &&
    match acts[|acts| - 1]
    case Enable(end, on) => if end == e then on else EnabledBy(acts[..|acts| - 1], e)
    case Detach(end) => end != e && EnabledBy(acts[..|acts| - 1], e)
    case _ => EnabledBy(acts[..|acts| - 1], e)
  }

  /** The server `i` is the last to which the end `e` was connected, and `e` was not deleted since. */
  predicate ConnectedBy(acts: seq<Action>, e: nat, i: nat) {
    acts != [] &&
    match acts[|acts| - 1]
    case Connect(end, to) => if end == e then i == to else ConnectedBy(acts[..|acts| - 1], e, i)
    case Detach(end) => end != e && ConnectedBy(acts[..|acts| - 1], e, i)
    case _ => ConnectedBy(acts[..|acts| - 1], e, i)
  }

  predicate Wired(s: Sys, e: nat, i: nat) {
    e in s.connections && s.connections[e] == i
  }

  predicate SameEnds(s: Sys, s': Sys) {
    s'.enabled == s.enabled && s'.connections == s.connections && s'.closed == s.closed
  }

  lemma AdvanceKeepsEnds(s: Sys, i: nat)
    requires CanProceed(s, i)
    ensures SameEnds(s, AdvanceSlot(s, i))
  {
    match PhaseOf(s, i) {
      case Deleted => assert SameEnds(s, AdvanceSlot(s, i));
      case Copied => assert SameEnds(s, AdvanceSlot(s, i));
      case HaveState(_) => assert SameEnds(s, AdvanceSlot(s, i));
      case HaveBoth(_, _) => assert SameEnds(s, AdvanceSlot(s, i));
      case Down => assert SameEnds(s, AdvanceSlot(s, i));
      case Ready => assert SameEnds(s, AdvanceSlot(s, i));
      case Made(_) => assert SameEnds(s, AdvanceSlot(s, i));
    }
  }

  lemma OthersKeepEnds(s: Sys, a: Action)
    requires Enabled(s, a) && !a.Enable? && !a.Connect? && !a.Detach? && !a.Cleanup?
    ensures SameEnds(s, Do(s, a))
  {
    if a.Proceed? { AdvanceKeepsEnds(s, a.i); }
  }

  predicate AsAsked(s: Sys, acts: seq<Action>, e: nat, i: nat) {
    && (e in s.enabled <==> EnabledBy(acts, e))
    && (Wired(s, e, i) <==> ConnectedBy(acts, e, i))
    && (s.closed <==> Cleanup in acts)
  }

  lemma StepAsAsked(s: Sys, a: Action, acts: seq<Action>, e: nat, i: nat)
    requires Enabled(s, a) && AsAsked(s, acts, e, i)
    ensures AsAsked(Do(s, a), acts + [a], e, i)
  {
    assert (acts + [a])[..|acts|] == acts;
    if !a.Enable? && !a.Connect? && !a.Detach? && !a.Cleanup? { OthersKeepEnds(s, a); }
  }

  /** In every run ends are enabled, connected and closed down exactly as was last asked. */
  lemma {:induction false} EndsAreAsAsked(run: seq<Sys>, acts: seq<Action>, k: nat, e: nat, i: nat)
    requires IsRun(run, acts) && k < |run|
    ensures e in run[k].enabled <==> EnabledBy(acts[..k], e)
    ensures Wired(run[k], e, i) <==> ConnectedBy(acts[..k], e, i)
    ensures run[k].closed <==> Cleanup in acts[..k]
  {
    if k > 0 {
      EndsAreAsAsked(run, acts, k - 1, e, i);
      assert Steps(run, acts, k - 1) && acts[..k] == acts[..k - 1] + [acts[k - 1]];
      StepAsAsked(run[k - 1], acts[k - 1], acts[..k - 1], e, i);
    }
  }

  /** A call comes back without having been sent only if the network was closed down. */
  lemma AbandonExactly(run: seq<Sys>, acts: seq<Action>, k: nat, c: nat)
    requires IsRun(run, acts) && k < |run| && c < |run[k].calls|
    ensures Enabled(run[k], OnCall(c, Abandon)) <==> run[k].calls[c].stage == Calling && Cleanup in acts[..k]
  {
    EndsAreAsAsked(run, acts, k, 0, 0);
  }

  // ----- exactly when a call is routed and answered -----

  /** A request reaches a server exactly when its end is enabled and connected to a name at which one is installed. */
  lemma RoutesExactly(run: seq<Sys>, acts: seq<Action>, k: nat, c: nat)
    requires IsRun(run, acts) && k < |acts| && acts[k] == OnCall(c, Route)
    ensures c < |run[k].calls| && c < |run[k + 1].calls|
    ensures
      var s, end, after := run[k], run[k].calls[c].end, run[k + 1].calls[c];
      if end in s.enabled && end in s.connections && s.connections[end] in s.installed
      then after.stage == Routed && after.name == s.connections[end] && after.inst == s.installed[after.name]
      else after.stage == Answering(false, [])
  {
    assert Steps(run, acts, k);
  }

  /** The reply goes back exactly when it was collected, is not dropped, and the end and the server are as they were. */
  lemma DecidesExactly(run: seq<Sys>, acts: seq<Action>, k: nat, c: nat, drop: bool)
    requires IsRun(run, acts) && k < |acts| && acts[k] == OnCall(c, Decide(drop))
    ensures c < |run[k].calls| && c < |run[k + 1].calls|
    ensures
      var s, call := run[k], run[k].calls[c];
      run[k + 1].calls[c].stage ==
        if call.stage.Collected? && !drop && call.end in s.enabled && call.name in s.installed && s.installed[call.name] == call.inst
        then Answering(true, call.stage.value)
        else Answering(false, [])
  {
    assert Steps(run, acts, k);
  }

  /** The network stops waiting for a handler exactly when the end is disabled or the server is no longer installed. */
  lemma GivesUpExactly(run: seq<Sys>, acts: seq<Action>, k: nat, c: nat)
    requires IsRun(run, acts) && k < |run| && c < |run[k].calls|
    ensures
      var s, call := run[k], run[k].calls[c];
      Enabled(s, OnCall(c, GiveUp)) <==>
        && (call.handler == Running || call.handler.Finished?) && !call.drainer
        && (call.end !in s.enabled || call.name !in s.installed || s.installed[call.name] != call.inst)
  {
    RunInv(run, acts, k);
    assert CallOk(run[k], run[k].calls[c]);
  }

  // ----- cut off -----

  predicate Unrouted(call: Call) { call.stage == Calling || call.stage == Posted }

  /** The end is disabled, or the server the call was routed to is no longer installed. */
  predicate Cut(s: Sys, call: Call) {
    call.end !in s.enabled || (!Unrouted(call) && (call.name !in s.installed || s.installed[call.name] != call.inst))
  }

  predicate CutAt(run: seq<Sys>, i: nat, c: nat) {
    i < |run| && c < |run[i].calls| && Cut(run[i], run[i].calls[c])
  }

  /** Not served, and not to be served. */
  predicate Unserved(call: Call) {
    call.handler == Idle && call.runs == 0 && (Unrouted(call) || ((call.stage.Answering? || call.stage.Returned?) && !call.stage.ok))
  }

  lemma CutStep(s: Sys, a: Action, c: nat)
    requires Enabled(s, a) && c < |s.calls| && Shape(s.calls[c]) && Cut(s, s.calls[c]) && !Acknowledged(s.calls[c])
    ensures c < |CallsAfter(s, a)| && !Acknowledged(CallsAfter(s, a)[c])
    ensures Unserved(s.calls[c]) && s.calls[c].end !in s.enabled ==> Unserved(CallsAfter(s, a)[c])
    ensures CallsAfter(s, a)[c].end == s.calls[c].end
  {
  }

  /**
   * While a call is cut off it is not acknowledged. If its end is disabled all along and it
   * was not routed before, no handler runs for it either.
   */
  lemma {:induction false} CutOffFails(run: seq<Sys>, acts: seq<Action>, k: nat, l: nat, c: nat)
    requires IsRun(run, acts) && k <= l < |run| && c < |run[k].calls| && !Acknowledged(run[k].calls[c])
    requires forall i: nat :: k <= i < l ==> CutAt(run, i, c)
    ensures c < |run[l].calls| && !Acknowledged(run[l].calls[c]) && run[l].calls[c].end == run[k].calls[c].end
    ensures Unserved(run[k].calls[c]) && (forall i :: k <= i < l ==> run[k].calls[c].end !in run[i].enabled) ==> Unserved(run[l].calls[c])
  {
    if k < l {
      CutOffFails(run, acts, k, l - 1, c);
      RunInv(run, acts, l - 1);
      assert Steps(run, acts, l - 1) && CutAt(run, l - 1, c);
      assert CallOk(run[l - 1], run[l - 1].calls[c]);
      CutStep(run[l - 1], acts[l - 1], c);
    }
  }

  // ----- a call can succeed -----

  lemma Extend(run: seq<Sys>, acts: seq<Action>, a: Action)
    requires IsRun(run, acts) && Enabled(run[|acts|], a)
    ensures IsRun(run + [Do(run[|acts|], a)], acts + [a])
  {
    var run', acts' := run + [Do(run[|acts|], a)], acts + [a];
    forall k: nat | k < |acts'| ensures Steps(run', acts', k) {
      if k < |acts| { assert Steps(run, acts, k); }
    }
  }

  /** What a call can do depends on the tables only. */
  lemma {:induction false} SameTables(s: Sys, s': Sys, call: Call, steps: seq<CallStep>)
    requires s' == s.(calls := s'.calls) && CanTakeAll(s, call, steps)
    ensures CanTakeAll(s', call, steps) && TakeAll(s', call, steps) == TakeAll(s, call, steps)
    decreases |steps|
  {
    if steps != [] {
      assert Take(s', call, steps[0]) == Take(s, call, steps[0]);
      SameTables(s, s', Take(s, call, steps[0]), steps[1..]);
    }
  }

  lemma {:induction false} RunTakes(run: seq<Sys>, acts: seq<Action>, c: nat, steps: seq<CallStep>)
    returns (run': seq<Sys>, acts': seq<Action>)
    requires IsRun(run, acts) && c < |run[|acts|].calls| && CanTakeAll(run[|acts|], run[|acts|].calls[c], steps)
    ensures IsRun(run', acts') && run <= run' && acts <= acts' && |acts'| == |acts| + |steps|
    ensures forall i :: 0 <= i < |steps| ==> acts'[|acts| + i] == OnCall(c, steps[i])
    ensures
      var s := run[|acts|];
      run'[|acts'|] == s.(calls := s.calls[c := TakeAll(s, s.calls[c], steps)])
    decreases |steps|
  {
    var s := run[|acts|];
    if steps == [] {
      run', acts' := run, acts;
      assert s.calls[c := s.calls[c]] == s.calls;
    } else {
      var a := OnCall(c, steps[0]);
      var s' := Do(s, a);
      Extend(run, acts, a);
      SameTables(s, s', s'.calls[c], steps[1..]);
      run', acts' := RunTakes(run + [s'], acts + [a], c, steps[1..]);
      assert forall i :: 1 <= i < |steps| ==> steps[1..][i - 1] == steps[i];
    }
  }

  /** Every run in which a posted call's server is reachable can be continued by that call alone to a positive return. */
  lemma CallCanSucceed(run: seq<Sys>, acts: seq<Action>, c: nat, v: Blob) returns (run': seq<Sys>, acts': seq<Action>)
    requires IsRun(run, acts) && c < |run[|acts|].calls| && run[|acts|].calls[c].stage == Posted
    requires
      var s, end := run[|acts|], run[|acts|].calls[c].end;
      end in s.enabled && end in s.connections && s.connections[end] in s.installed
    ensures IsRun(run', acts') && run <= run' && acts <= acts' && |acts'| == |acts| + 6
    ensures forall i :: |acts| <= i < |acts'| ==> acts'[i].OnCall? && acts'[i].c == c
    ensures c < |run'[|acts'|].calls| && run'[|acts'|].calls[c].stage == Returned(true, v)
  {
    var s := run[|acts|];
    RunInv(run, acts, |acts|);
    assert CallOk(s, s.calls[c]);
    UndisturbedCallSucceeds(s, s.calls[c], v);
    var steps := [Route, Dispatch, HandlerReturns(v)] + [Collect, Decide(false), Answer];
    run', acts' := RunTakes(run, acts, c, steps);
    forall i | |acts| <= i < |acts'| ensures acts'[i].OnCall? && acts'[i].c == c {
      assert acts'[|acts| + (i - |acts|)] == OnCall(c, steps[i - |acts|]);
    }
  }

  // ----- a server can be restarted -----

  /** How many steps of crash1 and start1 are still to come. */
  function ToGo(p: Phase): nat {
    match p
    case Deleted => 7
    case Copied => 6
    case HaveState(_) => 5
    case HaveBoth(_, _) => 4
    case Down => 3
    case Ready => 2
    case Made(_) => 1
    case Up => 0
  }

  lemma ProceedsOn(s: Sys, i: nat)
    requires Slots(s) && SlotOk(s, i) && CanProceed(s, i)
    ensures ToGo(PhaseOf(AdvanceSlot(s, i), i)) < ToGo(PhaseOf(s, i))
    ensures PhaseOf(AdvanceSlot(s, i), i) == Up ==> i in AdvanceSlot(s, i).installed
  {
  }

  /** In every run a slot that is not up can be brought up, with its server installed and owning the slot's persister. */
  lemma {:induction false} CanRestart(run: seq<Sys>, acts: seq<Action>, i: nat) returns (run': seq<Sys>, acts': seq<Action>)
    requires IsRun(run, acts) && PhaseOf(run[|acts|], i) != Up
    ensures IsRun(run', acts') && run <= run' && acts <= acts' && |acts'| <= |acts| + ToGo(PhaseOf(run[|acts|], i))
    ensures forall j :: |acts| <= j < |acts'| ==> acts'[j] == Proceed(i)
    ensures
      var s' := run'[|acts'|];
      PhaseOf(s', i) == Up && i in s'.installed && Owns(s', s'.installed[i], i)
    decreases ToGo(PhaseOf(run[|acts|], i))
  {
    var s := run[|acts|];
    RunInv(run, acts, |acts|);
    assert SlotOk(s, i);
    ProceedsOn(s, i);
    var s' := Do(s, Proceed(i));
    Extend(run, acts, Proceed(i));
    run', acts' := run + [s'], acts + [Proceed(i)];
    if PhaseOf(s', i) != Up {
      run', acts' := CanRestart(run', acts', i);
    } else {
      RunInv(run', acts', |acts'|);
      assert SlotOk(s', i);
    }
  }

  // ----- what was saved is kept -----

  lemma PastStep(s: Sys, s': Sys, inst: nat)
    requires Slots(s) && Slots(s') && Grows(s, s') && inst < |s.instances|
    ensures
      var store := s.instances[inst].store;
      && inst < |s'.instances| && s'.instances[inst] == s.instances[inst]
      && store < |s.stores| && store < |s'.stores| && s.stores[store].past <= s'.stores[store].past
  {
  }

  lemma StepGrowsRun(run: seq<Sys>, acts: seq<Action>, k: nat)
    requires IsRun(run, acts) && k < |acts|
    ensures Slots(run[k]) && Slots(run[k + 1]) && Grows(run[k], run[k + 1])
  {
    RunInv(run, acts, k);
    assert Steps(run, acts, k);
    StepInv(run[k], acts[k]);
  }

  lemma {:induction false} PastGrows(run: seq<Sys>, acts: seq<Action>, k: nat, l: nat, inst: nat)
    requires IsRun(run, acts) && k <= l < |run| && inst < |run[k].instances|
    ensures inst < |run[l].instances| && run[l].instances[inst] == run[k].instances[inst]
    ensures
      var store := run[k].instances[inst].store;
      store < |run[k].stores| && store < |run[l].stores| && run[k].stores[store].past <= run[l].stores[store].past
  {
    if k < l {
      PastGrows(run, acts, k, l - 1, inst);
      StepGrowsRun(run, acts, l - 1);
      PastStep(run[l - 1], run[l], inst);
    } else {
      StoreExists(run, acts, k, inst);
    }
  }

  lemma StoreExists(run: seq<Sys>, acts: seq<Action>, k: nat, inst: nat)
    requires IsRun(run, acts) && k < |run| && inst < |run[k].instances|
    ensures run[k].instances[inst].store < |run[k].stores|
  {
    RunInv(run, acts, k);
  }

  lemma MarkStep(s: Sys, a: Action, c: nat)
    requires Enabled(s, a) && c < |s.calls| && Shape(s.calls[c]) && (s.calls[c].handler.Finished? || s.calls[c].handler.Delivered?)
    ensures
      c < |CallsAfter(s, a)| && var h := CallsAfter(s, a)[c].handler;
      (h.Finished? || h.Delivered?) && h.mark == s.calls[c].handler.mark
  {
  }

  lemma {:induction false} MarkStays(run: seq<Sys>, acts: seq<Action>, k: nat, l: nat, c: nat)
    requires IsRun(run, acts) && k <= l < |run| && c < |run[k].calls|
    requires run[k].calls[c].handler.Finished? || run[k].calls[c].handler.Delivered?
    ensures
      c < |run[l].calls| && var h := run[l].calls[c].handler;
      (h.Finished? || h.Delivered?) && h.mark == run[k].calls[c].handler.mark
  {
    if k < l {
      MarkStays(run, acts, k, l - 1, c);
      RunInv(run, acts, l - 1);
      assert Steps(run, acts, l - 1) && CallOk(run[l - 1], run[l - 1].calls[c]);
      MarkStep(run[l - 1], acts[l - 1], c);
    }
  }

  /** What an instance saves is the content of its persister, after all it had saved before. */
  lemma SaveIsHeld(run: seq<Sys>, acts: seq<Action>, k: nat, inst: nat, disk: Disk)
    requires IsRun(run, acts) && k < |acts| && acts[k] == Save(inst, disk)
    ensures
      inst < |run[k].instances| && var store := run[k].instances[inst].store;
      && store < |run[k].stores| && store < |run[k + 1].stores| && run[k + 1].instances == run[k].instances
      && run[k + 1].stores[store] == Store(disk, run[k].stores[store].past + [disk])
  {
    assert Steps(run, acts, k);
  }

  /**
   * If an instance saves a state, then returns from a handler, and the call is acknowledged, then that state is, for
   * ever after, among those the slot's persister descends from, whatever crashes and restarts there are.
   */
  lemma AcknowledgedSaveSurvives(
    run: seq<Sys>, acts: seq<Action>, k: nat, m: nat, l: nat, l': nat, c: nat, inst: nat, disk: Disk, v: Blob)
    requires IsRun(run, acts) && k < m < |acts| && acts[k] == Save(inst, disk) && acts[m] == OnCall(c, HandlerReturns(v))
    requires m < l <= l' < |run| && c < |run[m].calls| && run[m].calls[c].inst == inst
    requires c < |run[l].calls| && run[l].calls[c].stage.Returned? && run[l].calls[c].stage.ok
    ensures
      var name, s := run[l].calls[c].name, run[l'];
      name in s.saved && s.saved[name] < |s.stores| && disk in s.stores[s.saved[name]].past
  {
    SaveIsHeld(run, acts, k, inst, disk);
    var store := run[k].instances[inst].store;
    var past := run[k + 1].stores[store].past;
    assert past[|past| - 1] == disk;
    PastGrows(run, acts, k + 1, m, inst);
    assert Steps(run, acts, m);
    MarkStays(run, acts, m + 1, l, c);
    AcknowledgedIsDurable(run, acts, l, l', c);
    var mark := run[l].calls[c].handler.mark;
    assert mark[|past| - 1] == disk;
  }
}
