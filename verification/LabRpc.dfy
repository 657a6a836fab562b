/**
 * The simulated network (labrpc), the persisters, and the tester's crash and
 * restart of a server, as one step machine. Every lock-protected section is one
 * step. Calls, handlers, the tester and old server instances interleave freely.
 */
module LabRpc {
  type Blob = seq<nat>

  datatype Disk = Disk(raftstate: Blob, snapshot: Blob)

  /** A persister: what it holds, and the saves that content descends from. */
  datatype Store = Store(content: Disk, past: seq<Disk>)

  /** A Server object with its Raft: slot, persister, and the saves it booted from. */
  datatype Instance = Instance(slot: nat, store: nat, boot: seq<Disk>)

  /** Where the tester is in crash1 and start1, for one slot. */
  datatype Phase =
    | Up
    | Deleted
    | Copied
    | HaveState(state: Blob)
    | HaveBoth(state: Blob, snapshot: Blob)
    | Down
    | Ready
    | Made(inst: nat)

  /** The goroutine that runs the handler. Finished: it is sending its reply on `ech`. */
  datatype Handler =
    | Idle
    | Running
    | Finished(mark: seq<Disk>, value: Blob)
    | Delivered(mark: seq<Disk>, value: Blob)

  datatype Stage =
    | Calling
    | Posted
    | Routed
    | Serving
    | Collected(value: Blob)
    | GaveUp
    | Answering(ok: bool, value: Blob)
    | Returned(ok: bool, value: Blob)

  /** `name` and `inst` are the server name and object read when the call was routed. */
  datatype Call = Call(
    end: nat, name: nat, inst: nat, stage: Stage,
    handler: Handler, drainer: bool, runs: nat, answers: nat)

  datatype CallStep =
    | Abandon
    | Post
    | Route
    | DropRequest
    | Dispatch
    | HandlerReturns(value: Blob)
    | Collect
    | GiveUp
    | Drain
    | Decide(drop: bool)
    | Answer

  datatype Sys = Sys(
    stores: seq<Store>, instances: seq<Instance>,
    saved: map<nat, nat>, phases: map<nat, Phase>,
    installed: map<nat, nat>, enabled: set<nat>, connections: map<nat, nat>,
    closed: bool, calls: seq<Call>)

  datatype Action =
    | Delete(i: nat)
    | Proceed(i: nat)
    | Enable(e: nat, on: bool)
    | Connect(e: nat, i: nat)
    | Detach(e: nat)
    | Cleanup
    | Save(inst: nat, disk: Disk)
    | NewCall(e: nat)
    | OnCall(c: nat, step: CallStep)

  const START := Sys([], [], map[], map[], map[], {}, map[], false, [])

  function Latest(past: seq<Disk>): Disk {
    if past == [] then Disk([], []) else past[|past| - 1]
  }

  function PhaseOf(s: Sys, i: nat): Phase {
    if i in s.phases then s.phases[i] else Down
  }

  // ----- the network's tables -----

  predicate IsServerDead(s: Sys, end: nat, name: nat, inst: nat) {
    end !in s.enabled || name !in s.installed || s.installed[name] != inst
  }

  predicate Reachable(s: Sys, end: nat) {
    end in s.enabled && end in s.connections && s.connections[end] in s.installed
  }

  // ----- one call -----

  predicate CanTake(s: Sys, call: Call, step: CallStep) {
    match step
    case Abandon => call.stage == Calling && s.closed
    case Post => call.stage == Calling
    case Route => call.stage == Posted
    case DropRequest => call.stage == Routed
    case Dispatch => call.stage == Routed
    case HandlerReturns(_) =>
      call.handler == Running && call.inst < |s.instances| && s.instances[call.inst].store < |s.stores|
    case Collect => call.stage == Serving && call.handler.Finished?
    case GiveUp => call.stage == Serving && IsServerDead(s, call.end, call.name, call.inst)
    case Drain => call.drainer && call.handler.Finished?
    case Decide(_) => call.stage.Collected? || call.stage == GaveUp
    case Answer => call.stage.Answering?
  }

  function Take(s: Sys, call: Call, step: CallStep): Call
    requires CanTake(s, call, step)
  {
    match step
    case Abandon => call.(stage := Returned(false, []))
    case Post => call.(stage := Posted)
    case Route =>
      if Reachable(s, call.end) then
        var name := s.connections[call.end];
        call.(stage := Routed, name := name, inst := s.installed[name])
      else call.(stage := Answering(false, []))
    case DropRequest => call.(stage := Answering(false, []))
    case Dispatch => call.(stage := Serving, handler := Running, runs := call.runs + 1)
    case HandlerReturns(v) => call.(handler := Finished(s.stores[s.instances[call.inst].store].past, v))
    case Collect => call.(stage := Collected(call.handler.value), handler := Delivered(call.handler.mark, call.handler.value))
    case GiveUp => call.(stage := GaveUp, drainer := true)
    case Drain => call.(drainer := false, handler := Delivered(call.handler.mark, call.handler.value))
    case Decide(drop) =>
      if call.stage == GaveUp || IsServerDead(s, call.end, call.name, call.inst) || drop then
        call.(stage := Answering(false, []))
      else call.(stage := Answering(true, call.stage.value))
    case Answer => call.(stage := Returned(call.stage.ok, call.stage.value), answers := call.answers + 1)
  }

  // ----- the tester's crash1 and start1 -----

  function At(s: Sys, i: nat, p: Phase): Sys {
    s.(phases := s.phases[i := p])
  }

  /** The tester replaces slot `i`'s persister by a new one. */
  function NewStore(s: Sys, i: nat, store: Store): Sys {
    s.(stores := s.stores + [store], saved := s.saved[i := |s.stores|])
  }

  predicate CanProceed(s: Sys, i: nat) {
    PhaseOf(s, i) != Up && (i in s.saved ==> s.saved[i] < |s.stores|) && (PhaseOf(s, i) == Ready ==> i in s.saved)
  }

  function AdvanceSlot(s: Sys, i: nat): Sys
    requires CanProceed(s, i)
  {
    var known := i in s.saved;
    match PhaseOf(s, i)
    case Deleted => if known then At(NewStore(s, i, s.stores[s.saved[i]]), i, Copied) else At(s, i, Copied)
    case Copied => if known then At(s, i, HaveState(s.stores[s.saved[i]].content.raftstate)) else At(s, i, Down)
    case HaveState(b) => if known then At(s, i, HaveBoth(b, s.stores[s.saved[i]].content.snapshot)) else s
    case HaveBoth(b, sn) => if known then At(NewStore(s, i, Store(Disk(b, sn), s.stores[s.saved[i]].past)), i, Down) else s
    case Down => At(NewStore(s, i, if known then s.stores[s.saved[i]] else Store(Disk([], []), [])), i, Ready)
    case Ready =>
      At(s, i, Made(|s.instances|)).(instances := s.instances + [Instance(i, s.saved[i], s.stores[s.saved[i]].past)])
    case Made(inst) => At(s, i, Up).(installed := s.installed[i := inst])
    case Up => s
  }

  // ----- every step -----

  predicate Enabled(s: Sys, a: Action) {
    match a
    case Delete(i) => PhaseOf(s, i) == Up || PhaseOf(s, i) == Down
    case Proceed(i) => CanProceed(s, i)
    case Save(inst, _) => inst < |s.instances| && s.instances[inst].store < |s.stores|
    case OnCall(c, step) => c < |s.calls| && CanTake(s, s.calls[c], step)
    case _ => true
  }

  function CallsAfter(s: Sys, a: Action): seq<Call>
    requires Enabled(s, a)
  {
    match a
    case NewCall(e) => s.calls + [Call(e, 0, 0, Calling, Idle, false, 0, 0)]
    case OnCall(c, step) => s.calls[c := Take(s, s.calls[c], step)]
    case _ => s.calls
  }

  function TablesAfter(s: Sys, a: Action): Sys
    requires Enabled(s, a)
  {
    match a
    case Delete(i) => At(s, i, Deleted).(installed := s.installed - {i})
    case Proceed(i) => AdvanceSlot(s, i)
    case Enable(e, on) => s.(enabled := if on then s.enabled + {e} else s.enabled - {e})
    case Connect(e, i) => s.(connections := s.connections[e := i])
    case Detach(e) => s.(enabled := s.enabled - {e}, connections := s.connections - {e})
    case Cleanup => s.(closed := true)
    case Save(inst, disk) =>
      var k := s.instances[inst].store;
      s.(stores := s.stores[k := Store(disk, s.stores[k].past + [disk])])
    case _ => s
  }

  function Do(s: Sys, a: Action): Sys
    requires Enabled(s, a)
  {
    TablesAfter(s, a).(calls := CallsAfter(s, a))
  }

  predicate IsRun(run: seq<Sys>, acts: seq<Action>) {
    && |run| == |acts| + 1
    && run[0] == START
    && forall k: nat :: k < |acts| ==> Steps(run, acts, k)
  }

  predicate Steps(run: seq<Sys>, acts: seq<Action>, k: nat)
    requires |run| == |acts| + 1 && k < |acts|
  {
    Enabled(run[k], acts[k]) && run[k + 1] == Do(run[k], acts[k])
  }

  // ----- slots, instances and persisters -----

  predicate Unowned(s: Sys, store: nat) {
    forall j :: 0 <= j < |s.instances| ==> s.instances[j].store != store
  }

  predicate SavedOk(s: Sys, i: nat) {
    i in s.saved ==> s.saved[i] < |s.stores| && forall j :: j in s.saved && j != i ==> s.saved[j] != s.saved[i]
  }

  predicate Owns(s: Sys, inst: nat, i: nat) {
    inst < |s.instances| && i in s.saved && s.instances[inst].slot == i && s.instances[inst].store == s.saved[i]
  }

  /** What the tester knows of slot `i` in each phase. */
  predicate SlotOk(s: Sys, i: nat) {
    && SavedOk(s, i)
    && (i in s.installed ==> PhaseOf(s, i) == Up && Owns(s, s.installed[i], i))
    && match PhaseOf(s, i)
       case Copied => i in s.saved ==> Unowned(s, s.saved[i])
       case HaveState(b) => SavedOk(s, i) && i in s.saved && Unowned(s, s.saved[i]) && s.stores[s.saved[i]].content.raftstate == b
       case HaveBoth(b, sn) => SavedOk(s, i) && i in s.saved && Unowned(s, s.saved[i]) && s.stores[s.saved[i]].content == Disk(b, sn)
       case Ready => i in s.saved
       case Made(inst) => Owns(s, inst, i)
       case _ => true
  }

  ghost predicate Slots(s: Sys) {
    && (forall k :: 0 <= k < |s.stores| ==> s.stores[k].content == Latest(s.stores[k].past))
    && (forall j :: 0 <= j < |s.instances| ==> s.instances[j].store < |s.stores|)
    && (forall i: nat :: SlotOk(s, i))
  }

  /** Nothing saved is ever lost: not from a persister, not from a slot. */
  ghost predicate Grows(s: Sys, s': Sys)
    requires Slots(s) && Slots(s')
  {
    && s.instances <= s'.instances
    && |s.stores| <= |s'.stores|
    && (forall k :: 0 <= k < |s.stores| ==> s.stores[k].past <= s'.stores[k].past)
    && (forall i: nat :: Kept(s, s', i))
  }

  ghost predicate Kept(s: Sys, s': Sys, i: nat)
    requires Slots(s) && Slots(s')
  {
    SlotOk(s, i) && SlotOk(s', i) && (i in s.saved ==> i in s'.saved && s.stores[s.saved[i]].past <= s'.stores[s'.saved[i]].past)
  }

  lemma DeleteSlots(s: Sys, i: nat)
    requires Slots(s) && Enabled(s, Delete(i))
    ensures Slots(TablesAfter(s, Delete(i)))
  {
    var s' := TablesAfter(s, Delete(i));
    forall j: nat ensures SlotOk(s', j) {
      assert SlotOk(s, j);
      if j != i { assert PhaseOf(s', j) == PhaseOf(s, j); }
    }
  }

  lemma SaveSlots(s: Sys, inst: nat, disk: Disk)
    requires Slots(s) && Enabled(s, Save(inst, disk))
    ensures Slots(TablesAfter(s, Save(inst, disk)))
  {
    var s' := TablesAfter(s, Save(inst, disk));
    forall j: nat ensures SlotOk(s', j) {
      assert SlotOk(s, j);
    }
  }

  /** Slot `i` takes a new persister that no instance has. */
  lemma NewStoreSlots(s: Sys, i: nat, store: Store, p: Phase)
    requires Slots(s) && store.content == Latest(store.past)
    requires p == Copied || p == Down || p == Ready
    requires i !in s.installed
    ensures Slots(At(NewStore(s, i, store), i, p))
  {
    var s' := At(NewStore(s, i, store), i, p);
    forall j: nat | j in s.saved ensures s.saved[j] < |s.stores| { assert SlotOk(s, j); }
    forall j: nat ensures SlotOk(s', j) {
      assert SlotOk(s, j);
      if j != i {
        assert PhaseOf(s', j) == PhaseOf(s, j);
        assert SavedOk(s', j);
      }
    }
  }

  lemma PhaseSlots(s: Sys, i: nat, p: Phase)
    requires Slots(s) && i !in s.installed && SlotOk(At(s, i, p), i)
    ensures Slots(At(s, i, p))
  {
    var s' := At(s, i, p);
    forall j: nat ensures SlotOk(s', j) {
      assert SlotOk(s, j);
      if j != i { assert PhaseOf(s', j) == PhaseOf(s, j); }
    }
  }

  lemma MakeSlots(s: Sys, i: nat)
    requires Slots(s) && CanProceed(s, i) && PhaseOf(s, i) == Ready
    ensures Slots(AdvanceSlot(s, i))
  {
    var s' := AdvanceSlot(s, i);
    assert SlotOk(s, i);
    forall j: nat ensures SlotOk(s', j) {
      assert SlotOk(s, j);
      if j != i { assert PhaseOf(s', j) == PhaseOf(s, j); }
    }
  }

  lemma AddSlots(s: Sys, i: nat)
    requires Slots(s) && CanProceed(s, i) && PhaseOf(s, i).Made?
    ensures Slots(AdvanceSlot(s, i))
  {
    var s' := AdvanceSlot(s, i);
    assert SlotOk(s, i);
    forall j: nat ensures SlotOk(s', j) {
      assert SlotOk(s, j);
      if j != i { assert PhaseOf(s', j) == PhaseOf(s, j); }
    }
  }

  lemma ProceedSlots(s: Sys, i: nat)
    requires Slots(s) && CanProceed(s, i)
    ensures Slots(AdvanceSlot(s, i))
  {
    assert SlotOk(s, i);
    match PhaseOf(s, i) {
      case Deleted =>
        if i in s.saved { NewStoreSlots(s, i, s.stores[s.saved[i]], Copied); } else { PhaseSlots(s, i, Copied); }
      case Copied =>
        PhaseSlots(s, i, if i in s.saved then HaveState(s.stores[s.saved[i]].content.raftstate) else Down);
      case HaveState(b) => PhaseSlots(s, i, HaveBoth(b, s.stores[s.saved[i]].content.snapshot));
      case HaveBoth(b, sn) => NewStoreSlots(s, i, Store(Disk(b, sn), s.stores[s.saved[i]].past), Down);
      case Down => NewStoreSlots(s, i, if i in s.saved then s.stores[s.saved[i]] else Store(Disk([], []), []), Ready);
      case Ready => MakeSlots(s, i);
      case Made(_) => AddSlots(s, i);
    }
  }

  lemma SameSlots(s: Sys, s': Sys)
    requires Slots(s)
    requires s' == s.(enabled := s'.enabled, connections := s'.connections, closed := s'.closed, calls := s'.calls)
    ensures Slots(s')
  {
    forall j: nat ensures SlotOk(s', j) { assert SlotOk(s, j); }
  }

  lemma StepSlots(s: Sys, a: Action)
    requires Slots(s) && Enabled(s, a)
    ensures Slots(TablesAfter(s, a))
  {
    match a {
      case Delete(i) => DeleteSlots(s, i);
      case Proceed(i) => ProceedSlots(s, i);
      case Save(inst, disk) => SaveSlots(s, inst, disk);
      case _ => SameSlots(s, TablesAfter(s, a));
    }
  }

  lemma SaveGrows(s: Sys, inst: nat, disk: Disk)
    requires Slots(s) && Enabled(s, Save(inst, disk)) && Slots(TablesAfter(s, Save(inst, disk)))
    ensures Grows(s, TablesAfter(s, Save(inst, disk)))
  {
    var s' := TablesAfter(s, Save(inst, disk));
    forall i: nat ensures Kept(s, s', i) { assert SlotOk(s, i) && SlotOk(s', i); }
  }

  lemma NewStoreGrows(s: Sys, i: nat, store: Store, p: Phase)
    requires Slots(s) && (i in s.saved ==> SavedOk(s, i) && store.past == s.stores[s.saved[i]].past)
    requires Slots(At(NewStore(s, i, store), i, p))
    ensures Grows(s, At(NewStore(s, i, store), i, p))
  {
    var s' := At(NewStore(s, i, store), i, p);
    forall j: nat ensures Kept(s, s', j) { assert SlotOk(s, j) && SlotOk(s', j); }
  }

  lemma LaterGrows(s: Sys, s': Sys)
    requires Slots(s) && Slots(s') && s'.stores == s.stores && s.instances <= s'.instances && s'.saved == s.saved
    ensures Grows(s, s')
  {
    forall i: nat ensures Kept(s, s', i) { assert SlotOk(s, i) && SlotOk(s', i); }
  }

  lemma ProceedGrows(s: Sys, i: nat)
    requires Slots(s) && CanProceed(s, i) && Slots(AdvanceSlot(s, i))
    ensures Grows(s, AdvanceSlot(s, i))
  {
    assert SlotOk(s, i);
    match PhaseOf(s, i) {
      case Deleted =>
        if i in s.saved { NewStoreGrows(s, i, s.stores[s.saved[i]], Copied); } else { LaterGrows(s, AdvanceSlot(s, i)); }
      case HaveBoth(b, sn) => NewStoreGrows(s, i, Store(Disk(b, sn), s.stores[s.saved[i]].past), Down);
      case Down => NewStoreGrows(s, i, if i in s.saved then s.stores[s.saved[i]] else Store(Disk([], []), []), Ready);
      case Copied | HaveState(_) | Ready | Made(_) => LaterGrows(s, AdvanceSlot(s, i));
    }
  }

  lemma StepGrows(s: Sys, a: Action)
    requires Slots(s) && Enabled(s, a) && Slots(TablesAfter(s, a))
    ensures Grows(s, TablesAfter(s, a))
  {
    match a {
      case Proceed(i) => ProceedGrows(s, i);
      case Save(inst, disk) => SaveGrows(s, inst, disk);
      case _ => LaterGrows(s, TablesAfter(s, a));
    }
  }

  // ----- calls -----

  /** How far a call, its handler, and the two possible receivers on `ech` have come. */
  predicate Shape(call: Call) {
    && call.answers == (if call.stage.Returned? && call.answers > 0 then 1 else 0)
    && call.runs == (if call.handler == Idle then 0 else 1)
    && match call.stage
       case Calling => call.handler == Idle && !call.drainer
       case Posted => call.handler == Idle && !call.drainer
       case Routed => call.handler == Idle && !call.drainer
       case Serving => (call.handler == Running || call.handler.Finished?) && !call.drainer
       case Collected(v) => call.handler.Delivered? && call.handler.value == v && !call.drainer
       case GaveUp => DrainedOrDraining(call)
       case Answering(ok, v) => AnswerOk(call, ok, v)
       case Returned(ok, v) => AnswerOk(call, ok, v) && (ok ==> call.answers == 1)
  }

  predicate DrainedOrDraining(call: Call) {
    call.drainer <==> call.handler == Running || call.handler.Finished?
  }

  predicate AnswerOk(call: Call, ok: bool, v: Blob) {
    DrainedOrDraining(call) && (ok ==> call.handler.Delivered? && call.handler.value == v)
  }

  /** What the handler saw saved when it returned is in its persister, and if acknowledged, in the slot's. */
  predicate Marked(s: Sys, call: Call) {
    && (call.stage == Routed || call.handler != Idle ==>
          && call.inst < |s.instances|
          && s.instances[call.inst].store < |s.stores|)
    && (call.handler.Finished? || call.handler.Delivered? ==>
          && call.inst < |s.instances| && s.instances[call.inst].store < |s.stores|
          && call.handler.mark <= s.stores[s.instances[call.inst].store].past)
    && (Acknowledged(call) ==> SlotHolds(s, call))
  }

  predicate Acknowledged(call: Call) {
    (call.stage.Answering? || call.stage.Returned?) && call.stage.ok
  }

  predicate SlotHolds(s: Sys, call: Call) {
    && call.handler.Delivered? && call.name in s.saved && s.saved[call.name] < |s.stores|
    && call.handler.mark <= s.stores[s.saved[call.name]].past
  }

  predicate CallOk(s: Sys, call: Call) {
    Shape(call) && Marked(s, call)
  }

  ghost predicate Inv(s: Sys) {
    Slots(s) && forall c :: 0 <= c < |s.calls| ==> CallOk(s, s.calls[c])
  }

  lemma CallKept(s: Sys, s': Sys, call: Call)
    requires Slots(s) && Slots(s') && Grows(s, s') && CallOk(s, call)
    ensures CallOk(s', call)
  {
    if Acknowledged(call) { assert Kept(s, s', call.name); }
    if call.inst < |s.instances| { assert s'.instances[call.inst] == s.instances[call.inst]; }
  }

  lemma TakeShape(s: Sys, call: Call, step: CallStep)
    requires Shape(call) && CanTake(s, call, step)
    ensures Shape(Take(s, call, step))
  {
  }

  lemma TakeMarked(s: Sys, call: Call, step: CallStep)
    requires Slots(s) && CallOk(s, call) && CanTake(s, call, step)
    ensures Marked(s, Take(s, call, step))
  {
    match step {
      case Route => if Reachable(s, call.end) { assert SlotOk(s, s.connections[call.end]); }
      case Decide(_) => assert SlotOk(s, call.name);
      case _ =>
    }
  }

  lemma StepCalls(s: Sys, a: Action, c: nat)
    requires Inv(s) && Enabled(s, a) && c < |CallsAfter(s, a)|
    ensures CallOk(s, CallsAfter(s, a)[c])
  {
    if a.OnCall? && c == a.c {
      TakeShape(s, s.calls[c], a.step);
      TakeMarked(s, s.calls[c], a.step);
    } else if c < |s.calls| {
      assert CallsAfter(s, a)[c] == s.calls[c];
    }
  }

  /** The tables do not depend on the calls. */
  lemma WithCalls(s: Sys, s': Sys, calls: seq<Call>)
    requires Slots(s) && Slots(s') && Grows(s, s')
    ensures Slots(s'.(calls := calls)) && Grows(s, s'.(calls := calls))
  {
    var s'' := s'.(calls := calls);
    SameSlots(s', s'');
    forall i: nat ensures Kept(s, s'', i) { assert Kept(s, s', i) && SlotOk(s'', i); }
  }

  lemma StepInv(s: Sys, a: Action)
    requires Inv(s) && Enabled(s, a)
    ensures Inv(Do(s, a)) && Grows(s, Do(s, a))
  {
    var calls := CallsAfter(s, a);
    StepSlots(s, a);
    StepGrows(s, a);
    WithCalls(s, TablesAfter(s, a), calls);
    var s' := TablesAfter(s, a).(calls := calls);
    forall c: nat | c < |calls| ensures CallOk(s', calls[c]) {
      StepCalls(s, a, c);
      CallKept(s, s', calls[c]);
    }
  }

  lemma {:induction false} RunInv(run: seq<Sys>, acts: seq<Action>, k: nat)
    requires IsRun(run, acts) && k < |run|
    ensures Inv(run[k])
  {
    if k > 0 {
      RunInv(run, acts, k - 1);
      assert Steps(run, acts, k - 1);
      StepInv(run[k - 1], acts[k - 1]);
    }
  }

  // ----- what every run guarantees -----

  function Receivers(call: Call): nat {
    (if call.stage == Serving then 1 else 0) + (if call.drainer then 1 else 0)
  }

  /** At most one execution and one reply; a positive return carries its own handler's value. */
  lemma AtMostOnce(run: seq<Sys>, acts: seq<Action>, k: nat, c: nat)
    requires IsRun(run, acts) && k < |run| && c < |run[k].calls|
    ensures run[k].calls[c].runs <= 1 && run[k].calls[c].answers <= 1
    ensures var call := run[k].calls[c];
      call.stage.Returned? && call.stage.ok ==>
        call.runs == 1 && call.answers == 1 && call.handler.Delivered? && call.handler.value == call.stage.value
  {
    RunInv(run, acts, k);
    assert CallOk(run[k], run[k].calls[c]);
  }

  /** From dispatch until its send completes, a handler has exactly one receiver on `ech`; otherwise none. */
  lemma ExactlyOneReceiver(run: seq<Sys>, acts: seq<Action>, k: nat, c: nat)
    requires IsRun(run, acts) && k < |run| && c < |run[k].calls|
    ensures var call := run[k].calls[c];
      Receivers(call) == if call.handler == Running || call.handler.Finished? then 1 else 0
    ensures var call := run[k].calls[c];
      call.handler.Finished? ==> (CanTake(run[k], call, Collect) <==> !CanTake(run[k], call, Drain))
  {
    RunInv(run, acts, k);
    assert CallOk(run[k], run[k].calls[c]);
  }

  lemma ReturnedStays(s: Sys, a: Action, c: nat)
    requires c < |s.calls| && Enabled(s, a) && Shape(s.calls[c]) && s.calls[c].stage.Returned? && s.calls[c].stage.ok
    ensures c < |CallsAfter(s, a)| && CallsAfter(s, a)[c] == s.calls[c]
  {
  }

  lemma {:induction false} ReturnIsFinal(run: seq<Sys>, acts: seq<Action>, k: nat, l: nat, c: nat)
    requires IsRun(run, acts) && k <= l < |run| && c < |run[k].calls|
    requires run[k].calls[c].stage.Returned? && run[k].calls[c].stage.ok
    ensures c < |run[l].calls| && run[l].calls[c] == run[k].calls[c]
  {
    if k < l {
      ReturnIsFinal(run, acts, k, l - 1, c);
      RunInv(run, acts, l - 1);
      assert Steps(run, acts, l - 1);
      assert CallOk(run[l - 1], run[l - 1].calls[c]);
      ReturnedStays(run[l - 1], acts[l - 1], c);
    }
  }

  /**
   * Acknowledged implies durable: once a Call has returned true, the persister of that server's slot
   * holds, for ever after, a state no older than what was saved when the handler returned.
   */
  lemma AcknowledgedIsDurable(run: seq<Sys>, acts: seq<Action>, k: nat, l: nat, c: nat)
    requires IsRun(run, acts) && k <= l < |run| && c < |run[k].calls|
    requires run[k].calls[c].stage.Returned? && run[k].calls[c].stage.ok
    ensures var call, s := run[k].calls[c], run[l];
      && call.handler.Delivered? && call.name in s.saved && s.saved[call.name] < |s.stores|
      && call.handler.mark <= s.stores[s.saved[call.name]].past
      && s.stores[s.saved[call.name]].content == Latest(s.stores[s.saved[call.name]].past)
  {
    ReturnIsFinal(run, acts, k, l, c);
    RunInv(run, acts, l);
    assert CallOk(run[l], run[l].calls[c]);
  }

  /** Slot `i` got its newest instance, booted from what its persister then held. */
  predicate Booted(s: Sys, s': Sys, i: nat) {
    && i in s.saved && s.saved[i] < |s.stores|
    && s'.instances == s.instances + [Instance(i, s.saved[i], s.stores[s.saved[i]].past)]
  }

  lemma ProceedBoots(s: Sys, i: nat)
    requires CanProceed(s, i)
    ensures AdvanceSlot(s, i).instances == s.instances || Booted(s, AdvanceSlot(s, i), i)
  {
  }

  lemma OnlyMakeBoots(run: seq<Sys>, acts: seq<Action>, k: nat)
    requires IsRun(run, acts) && k < |acts|
    ensures var s, s' := run[k], run[k + 1]; s'.instances == s.instances || exists i: nat :: Booted(s, s', i)
  {
    assert Steps(run, acts, k);
    match acts[k] {
      case Proceed(i) => ProceedBoots(run[k], i);
      case _ =>
    }
  }

  /** So every later instance of that server boots from a state no older than that. */
  lemma {:induction false} RestartsSeeAcknowledged(run: seq<Sys>, acts: seq<Action>, k: nat, l: nat, c: nat, j: nat)
    requires IsRun(run, acts) && k <= l < |run| && c < |run[k].calls|
    requires run[k].calls[c].stage.Returned? && run[k].calls[c].stage.ok
    requires |run[k].instances| <= j < |run[l].instances| && run[l].instances[j].slot == run[k].calls[c].name
    ensures run[k].calls[c].handler.Delivered? && run[k].calls[c].handler.mark <= run[l].instances[j].boot
  {
    OnlyMakeBoots(run, acts, l - 1);
    if j < |run[l - 1].instances| {
      RestartsSeeAcknowledged(run, acts, k, l - 1, c, j);
    } else {
      AcknowledgedIsDurable(run, acts, k, l - 1, c);
    }
  }

  predicate CanTakeAll(s: Sys, call: Call, steps: seq<CallStep>)
    decreases |steps|
  {
    steps == [] || (CanTake(s, call, steps[0]) && CanTakeAll(s, Take(s, call, steps[0]), steps[1..]))
  }

  function TakeAll(s: Sys, call: Call, steps: seq<CallStep>): Call
    requires CanTakeAll(s, call, steps)
    decreases |steps|
  {
    if steps == [] then call else TakeAll(s, Take(s, call, steps[0]), steps[1..])
  }

  lemma TakeFirst(s: Sys, call: Call, step: CallStep, rest: seq<CallStep>)
    requires CanTake(s, call, step) && CanTakeAll(s, Take(s, call, step), rest)
    ensures CanTakeAll(s, call, [step] + rest) && TakeAll(s, call, [step] + rest) == TakeAll(s, Take(s, call, step), rest)
  {
    assert ([step] + rest)[1..] == rest;
  }

  lemma ReplySucceeds(s: Sys, call: Call)
    requires call.stage == Serving && call.handler.Finished? && !IsServerDead(s, call.end, call.name, call.inst)
    ensures var steps := [Collect, Decide(false), Answer];
      CanTakeAll(s, call, steps) && TakeAll(s, call, steps).stage == Returned(true, call.handler.value)
  {
    var c1 := Take(s, call, Collect);
    var c2 := Take(s, c1, Decide(false));
    TakeFirst(s, c2, Answer, []);
    TakeFirst(s, c1, Decide(false), [Answer]);
    TakeFirst(s, call, Collect, [Decide(false), Answer]);
  }

  /** Nothing need fail: while the server stays reachable, a call can run to a positive return of the handler's value. */
  lemma UndisturbedCallSucceeds(s: Sys, call: Call, v: Blob)
    requires Slots(s) && CallOk(s, call) && call.stage == Posted
    requires call.end in s.enabled && call.end in s.connections && s.connections[call.end] in s.installed
    ensures var steps := [Route, Dispatch, HandlerReturns(v)] + [Collect, Decide(false), Answer];
      CanTakeAll(s, call, steps) && TakeAll(s, call, steps).stage == Returned(true, v)
  {
    assert SlotOk(s, s.connections[call.end]);
    var c1 := Take(s, call, Route);
    var c2 := Take(s, c1, Dispatch);
    var rest := [Collect, Decide(false), Answer];
    ReplySucceeds(s, Take(s, c2, HandlerReturns(v)));
    TakeFirst(s, c2, HandlerReturns(v), rest);
    TakeFirst(s, c1, Dispatch, [HandlerReturns(v)] + rest);
    TakeFirst(s, call, Route, [Dispatch] + ([HandlerReturns(v)] + rest));
    assert [Route] + ([Dispatch] + ([HandlerReturns(v)] + rest)) == [Route, Dispatch, HandlerReturns(v)] + rest;
  }

  /** The bounds in the guards never hold a step back. */
  lemma GuardsHold(run: seq<Sys>, acts: seq<Action>, k: nat, i: nat, c: nat, v: Blob, inst: nat, disk: Disk)
    requires IsRun(run, acts) && k < |run|
    ensures PhaseOf(run[k], i) != Up ==> Enabled(run[k], Proceed(i))
    ensures c < |run[k].calls| && run[k].calls[c].handler == Running ==> Enabled(run[k], OnCall(c, HandlerReturns(v)))
    ensures inst < |run[k].instances| ==> Enabled(run[k], Save(inst, disk))
  {
    RunInv(run, acts, k);
    assert SlotOk(run[k], i);
    if c < |run[k].calls| { assert CallOk(run[k], run[k].calls[c]); }
  }
}
