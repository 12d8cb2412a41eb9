/** What a VM's place in the lifecycle says about its past, over runs, and how failures are
    reported. */
module DaemonProgress {
  import opened Prelude
  import opened VfioExecute
  import opened Lifecycle
  import opened Daemon

  /** A tick in which the work of `state` is done, its calls answered without error. */
  ghost predicate DoneBy(k: Kernel, env: Env, exited: bool, vm: Vm, state: VmState) {
    var v := DetectExit(exited, vm);
    WantedUp(v) && v.m.state == state && CallError(k, env, v.m).None?
  }

  /** The work of `state` was done in the current incarnation. */
  ghost predicate HasDone(k: Kernel, entry: VmEntry, acts: seq<Action>, state: VmState) {
    acts != [] &&
    var front, last := acts[..|acts| - 1], acts[|acts| - 1];
    var vm := After(k, entry, front);
    && !Replaces(entry, vm, last)
    && (|| HasDone(k, entry, front, state)
        || (last.what.Tick? && vm.Some?
            && DoneBy(k, last.what.env, last.what.exited, Relocate(vm.value, last.at), state)))
  }

  /** A machine is past `state` if that state's work was done, and in bring-up only then; the
      pin flags say whether their states' work was done. */
  predicate Earned(m: Machine, state: VmState, done: bool) {
    && (done ==> state.Rank() < m.state.Rank())
    && (state.Rank() < m.state.Rank() <= Steady.Rank() ==> done)
    && (state == PinVcpus ==> m.rt.pinnedThreads == done)
    && (state == PinIrqs ==> m.rt.pinnedIrqs == done)
  }

  lemma StepEarns(k: Kernel, env: Env, m: Machine, state: VmState, done: bool)
    requires m.state.BringUp() && state.Rank() < Steady.Rank() && Earned(m, state, done)
    ensures Earned(StepOf(k, env, m).0, state, done || (m.state == state && CallError(k, env, m).None?))
  {
    StepFailsIff(k, env, m);
    StepMovesByOne(k, env, m);
    if CallError(k, env, m).None? {
      StepEffect(k, env, m);
    } else {
      WorkOwnFieldOnly(k, env, m.Push(System, Enter(m.state)));
    }
  }

  lemma ShutdownEarns(k: Kernel, env: Env, m: Machine, state: VmState, done: bool)
    requires state.Rank() < Steady.Rank() && Earned(m, state, done)
    ensures Earned(ShutdownStepOf(k, env, m).0, state, done)
  {
    ShutdownMoves(k, env, m);
    ShutdownEffect(k, env, m);
  }

  lemma LoggedEarns(m: Machine, error: Option<Failure>, state: VmState, done: bool)
    requires Earned(m, state, done)
    ensures Earned(Logged(m, error), state, done)
  {}

  lemma DriveEarns(k: Kernel, env: Env, vm: Vm, state: VmState, done: bool)
    requires state.Rank() < Steady.Rank() && Earned(vm.m, state, done)
    ensures Earned(Drive(k, env, vm).m, state,
                   done || (WantedUp(vm) && vm.m.state == state && CallError(k, env, vm.m).None?))
  {
    if WantedUp(vm) {
      if vm.m.state.BringUp() {
        StepEarns(k, env, vm.m, state, done);
        LoggedEarns(StepOf(k, env, vm.m).0, StepOf(k, env, vm.m).1, state,
                    done || (vm.m.state == state && CallError(k, env, vm.m).None?));
      }
    } else {
      ShutdownEarns(k, env, vm.m, state, done);
      LoggedEarns(ShutdownStepOf(k, env, vm.m).0, ShutdownStepOf(k, env, vm.m).1, state, done);
    }
  }

  lemma TickEarns(k: Kernel, env: Env, exited: bool, vm: Vm, state: VmState, done: bool)
    requires state.Rank() < Steady.Rank() && Earned(vm.m, state, done)
    ensures Earned(TickOf(k, env, exited, vm).0.m, state, done || DoneBy(k, env, exited, vm, state))
  {
    var v := DetectExit(exited, vm);
    DriveEarns(k, env, v, state, done);
    assert TickOf(k, env, exited, vm).0.m == Drive(k, env, v).m;
  }

  lemma ApplyEarns(k: Kernel, entry: VmEntry, vm: Vm, a: Action, state: VmState, done: bool)
    requires state.Rank() < Steady.Rank() && Earned(vm.m, state, done)
    ensures var next := Apply(k, entry, Some(vm), a).0;
      && next.Some?
      && Earned(next.value.m, state, !Replaces(entry, Some(vm), a) &&
           (done || (a.what.Tick? && DoneBy(k, a.what.env, a.what.exited, Relocate(vm, a.at), state))))
  {
    if a.what.Tick? {
      TickEarns(k, a.what.env, a.what.exited, Relocate(vm, a.at), state, done);
    } else {
      StartMakes(entry, Some(Relocate(vm, a.at)), a.at);
    }
  }

  /** Over every run: a VM in bring-up or Steady is past a state if and only if that state's
      work was done in its current incarnation, all its calls answered without error; its
      threads are marked pinned if and only if the work of PinVcpus was, its interrupts if
      and only if that of PinIrqs was. */
  lemma {:induction false} EveryStateIsEarned(k: Kernel, entry: VmEntry, acts: seq<Action>, state: VmState)
    requires state.Rank() < Steady.Rank()
    ensures var vm, done := After(k, entry, acts), HasDone(k, entry, acts, state);
      if vm.None? then !done
      else
        && (vm.value.m.state.Rank() <= Steady.Rank() ==> (state.Rank() < vm.value.m.state.Rank() <==> done))
        && (state == PinVcpus ==> (vm.value.m.rt.pinnedThreads <==> done))
        && (state == PinIrqs ==> (vm.value.m.rt.pinnedIrqs <==> done))
        && Earned(vm.value.m, state, done)
  {
    if acts != [] {
      var front, last := acts[..|acts| - 1], acts[|acts| - 1];
      EveryStateIsEarned(k, entry, front, state);
      var vm := After(k, entry, front);
      if vm.Some? {
        ApplyEarns(k, entry, vm.value, last, state, HasDone(k, entry, front, state));
      } else {
        StartMakes(entry, None, last.at);
      }
    }
  }

  /** A guest that shut itself down is noticed at the next tick, which leaves its VM without
      handle, in Shutdown and not wanted up; the stop cannot fail. */
  lemma ExitIsNoticed(k: Kernel, env: Env, vm: Vm)
    requires vm.m.state == Steady && vm.m.rt.qemu.Some?
    ensures var next := TickOf(k, env, true, vm).0;
      next.m.state == Shutdown && next.m.rt.qemu.None? && !WantedUp(next)
  {
    var v := DetectExit(true, vm);
    ShutdownEffect(k, env, v.m);
    ShutdownMoves(k, env, v.m);
    assert TickOf(k, env, true, vm).0.m == Drive(k, env, v).m;
  }

  /** The error of the step that a tick takes, if it takes one and it fails. */
  ghost function TickError(k: Kernel, env: Env, vm: Vm): Option<Failure> {
    if WantedUp(vm) then
      if vm.m.state.BringUp() && vm.m.state != Steady then StepOf(k, env, vm.m).1 else None
    else ShutdownStepOf(k, env, vm.m).1
  }

  lemma DriveReports(k: Kernel, env: Env, vm: Vm)
    requires Inv(vm.m) && ValidHost(vm.m.host)
    ensures var e, next := TickError(k, env, vm), Drive(k, env, vm);
      && (e.Some? ==> |next.m.rt.events| > |vm.m.rt.events|
                      && next.m.rt.events[|next.m.rt.events| - 1] == CoreEvent(Error, StepFailed(e.value))
                      && !WantedUp(next))
      && (e.None? && WantedUp(vm) ==> WantedUp(next))
  {
    if WantedUp(vm) {
      StepKeepsInv(k, env, vm.m);
    } else {
      ShutdownKeepsInv(k, env, vm.m);
      ShutdownEffect(k, env, vm.m);
    }
  }

  /** A tick whose step fails ends its batch with that failure, as an error event, and leaves
      the VM no longer wanted up; a VM whose step does not fail stays wanted up. */
  lemma FailureIsReported(k: Kernel, env: Env, exited: bool, vm: Vm)
    requires Settled(Some(vm)) && ValidHost(vm.m.host)
    ensures var v := DetectExit(exited, vm);
      var e, next, batch := TickError(k, env, v), TickOf(k, env, exited, vm).0, TickOf(k, env, exited, vm).1;
      && (e.Some? ==> batch != [] && batch[|batch| - 1] == IpcEvent(IpcError, StepFailed(e.value)) && !WantedUp(next))
      && (e.None? && WantedUp(v) ==> WantedUp(next))
  {
    var v := DetectExit(exited, vm);
    assert Inv(v.m);
    DriveReports(k, env, v);
    if TickError(k, env, v).Some? {
      BatchEnds(Drive(k, env, v));
    }
  }

  lemma BatchEnds(vm: Vm)
    requires vm.cursor < |vm.m.rt.events|
    ensures var batch, last := Flush(vm).1, vm.m.rt.events[|vm.m.rt.events| - 1];
      && batch != [] && batch[|batch| - 1].message == last.message
      && (last.kind == Error ==> batch[|batch| - 1].kind == IpcError)
  {}
}
