// The Start/Run/Close handshake of a resource synchro
// (pkg/synchromanager/clustersynchro/default_resource_synchro.go), as a step system with any number
// of concurrent Start calls, one Run and any number of Close calls.
//
// Channels are numbered as they are made; receiving from a channel succeeds once it is closed.
// A critical section under startlock is one step, except that Run keeps the lock while it waits.
// The stop channel of a Start call may be found closed or open at every select.
module StartHandshake {
  import opened Common

  type Id = nat

  datatype StartPc =
    | Entered                       // Start has been called
    | Waiting(on: Option<nat>)      // at the select; None is the nil channel
    | Locking                       // the channel was closed; the lock is wanted
    | Admitted                      // past the loop, before `defer close(synchro.stopped)`
    | Running(ch: nat, informer: bool)  // will close `ch` when it returns
    | StartReturned

  datatype RunPc =
    | NotRun
    | Launched                      // before `close(synchro.stopped)`
    | Processing
    | WantLock
    | WaitStop                      // holds startlock, receives from synchro.stopped
    | RunReturned

  // `stopped` is the current channel, `made` the number of channels made so far. `crashed` records a
  // panic: the close of a closed channel.
  datatype State = State(
    stopped: nat, made: nat, closed: set<nat>, crashed: bool, closer: bool, run: RunPc, starts: map<Id, StartPc>)

  datatype Step =
    | CallStart(id: Id) | ReadStopped(id: Id) | Quit(id: Id, stop: bool) | Wake(id: Id) | Try(id: Id, stop: bool)
    | Defer(id: Id) | InformerOn(id: Id) | InformerOff(id: Id) | Return(id: Id)
    | CallRun | OpenStart | StopProcessing | LockRun | FinishRun
    | Close

  const INITIAL := State(0, 1, {}, false, false, NotRun, map[])

  predicate PastLoop(pc: StartPc) { pc.Admitted? || pc.Running? }

  predicate At(s: State, id: Id, pc: StartPc) { id in s.starts && s.starts[id] == pc }

  predicate LockFree(s: State) { !s.run.WaitStop? }

  function CloseChannel(s: State, ch: nat): State {
    s.(closed := s.closed + {ch}, crashed := s.crashed || ch in s.closed)
  }

  function Moved(s: State, id: Id, pc: StartPc): State { s.(starts := s.starts[id := pc]) }

  predicate Enabled(s: State, a: Step) {
    match a
    case CallStart(id) => id !in s.starts
    case ReadStopped(id) => At(s, id, Entered) && LockFree(s)
    case Quit(id, stop) => id in s.starts && s.starts[id].Waiting? && (stop || s.closer)
    case Wake(id) => id in s.starts && s.starts[id].Waiting? && s.starts[id].on.Some?
        && s.starts[id].on.value in s.closed
    case Try(id, _) => At(s, id, Locking) && LockFree(s)
    case Defer(id) => At(s, id, Admitted)
    case InformerOn(id) => id in s.starts && s.starts[id].Running? && !s.starts[id].informer && !s.closer
    case InformerOff(id) => id in s.starts && s.starts[id].Running? && s.starts[id].informer
    case Return(id) => id in s.starts && s.starts[id].Running? && !s.starts[id].informer
    case CallRun => s.run.NotRun?
    case OpenStart => s.run.Launched?
    case StopProcessing => s.run.Processing? && s.closer
    case LockRun => s.run.WantLock?
    case FinishRun => s.run.WaitStop? && s.stopped in s.closed
    case Close => true
  }

  function Next(s: State, a: Step): State
    requires Enabled(s, a)
  {
    match a
    case CallStart(id) => Moved(s, id, Entered)
    case ReadStopped(id) => Moved(s, id, Waiting(Some(s.stopped)))
    case Quit(id, _) => Moved(s, id, StartReturned)
    case Wake(id) => Moved(s, id, Locking)
    case Try(id, stop) =>
      if stop || s.closer then Moved(s, id, Waiting(None))
      else if s.stopped in s.closed then Moved(s, id, Admitted).(stopped := s.made, made := s.made + 1)
      else Moved(s, id, Waiting(Some(s.stopped)))
    case Defer(id) => Moved(s, id, Running(s.stopped, false))
    case InformerOn(id) => Moved(s, id, s.starts[id].(informer := true))
    case InformerOff(id) => Moved(s, id, s.starts[id].(informer := false))
    case Return(id) => CloseChannel(Moved(s, id, StartReturned), s.starts[id].ch)
    case CallRun => s.(run := Launched)
    case OpenStart => CloseChannel(s, s.stopped).(run := Processing)
    case StopProcessing => s.(run := WantLock)
    case LockRun => s.(run := WaitStop)
    case FinishRun => s.(run := RunReturned)
    case Close => s.(closer := true)
  }

  ghost predicate SomePastLoop(s: State) { exists id :: id in s.starts && PastLoop(s.starts[id]) }

  ghost predicate Inv(s: State) {
    && s.stopped < s.made
    && (forall ch :: ch in s.closed ==> ch < s.made)
    && !s.crashed
    // at most one Start is past the loop, and what it will close is the current channel
    && (forall x, y :: x in s.starts && y in s.starts && PastLoop(s.starts[x]) && PastLoop(s.starts[y]) ==> x == y)
    && (forall x :: x in s.starts && s.starts[x].Running? ==> s.starts[x].ch == s.stopped)
    && (s.run.NotRun? || s.run.Launched? ==> s.closed == {} && !SomePastLoop(s))
    // from then on the current channel is open exactly while a Start is past the loop
    && (!s.run.NotRun? && !s.run.Launched? ==> (s.stopped !in s.closed <==> SomePastLoop(s)))
    && (s.run.WantLock? || s.run.WaitStop? || s.run.RunReturned? ==> s.closer)
    && (s.run.RunReturned? ==> s.stopped in s.closed)
  }

  // A Start moves on without passing the loop or returning from beyond it.
  lemma MoveKeepsInv(s: State, id: Id, pc: StartPc)
    requires Inv(s) && (id in s.starts && PastLoop(s.starts[id])) == PastLoop(pc)
    requires pc.Running? ==> pc.ch == s.stopped
    ensures Inv(Moved(s, id, pc))
  {
    var s' := Moved(s, id, pc);
    assert SomePastLoop(s) == SomePastLoop(s') by {
      if SomePastLoop(s) {
        var x :| x in s.starts && PastLoop(s.starts[x]);
        assert PastLoop(s'.starts[x]);
      }
    }
  }

  lemma AdmissionKeepsInv(s: State, id: Id)
    requires Inv(s) && Enabled(s, Try(id, false)) && s.stopped in s.closed && !s.closer
    ensures Inv(Next(s, Try(id, false)))
  {
    assert PastLoop(Next(s, Try(id, false)).starts[id]);
  }

  lemma ReturnKeepsInv(s: State, id: Id)
    requires Inv(s) && Enabled(s, Return(id))
    ensures Inv(Next(s, Return(id)))
  {
    assert PastLoop(s.starts[id]);
  }

  lemma RunStepKeepsInv(s: State, a: Step)
    requires Inv(s) && Enabled(s, a) && (a.CallRun? || a.OpenStart? || a.StopProcessing? || a.LockRun? || a.FinishRun?
             || a.Close?)
    ensures Inv(Next(s, a))
  {
  }

  lemma StepKeepsInv(s: State, a: Step)
    requires Inv(s) && Enabled(s, a)
    ensures Inv(Next(s, a))
  {
    if a.Return? {
      ReturnKeepsInv(s, a.id);
    } else if a.CallRun? || a.OpenStart? || a.StopProcessing? || a.LockRun? || a.FinishRun? || a.Close? {
      RunStepKeepsInv(s, a);
    } else if a.Try? && !a.stop && !s.closer && s.stopped in s.closed {
      AdmissionKeepsInv(s, a.id);
    } else {
      MoveKeepsInv(s, a.id, Next(s, a).starts[a.id]);
    }
  }

  ghost predicate IsRun(states: seq<State>, steps: seq<Step>) {
    && |states| == |steps| + 1
    && states[0] == INITIAL
    && forall i :: 0 <= i < |steps| ==> Enabled(states[i], steps[i]) && states[i + 1] == Next(states[i], steps[i])
  }

  lemma {:induction false} RunKeepsInv(states: seq<State>, steps: seq<Step>, i: nat)
    requires IsRun(states, steps) && i < |states|
    ensures Inv(states[i])
  {
    if i > 0 {
      RunKeepsInv(states, steps, i - 1);
      StepKeepsInv(states[i - 1], steps[i - 1]);
    }
  }

  // In every interleaving at most one Start is past the admission loop, so at most one informer runs.
  lemma AtMostOneAdmitted(states: seq<State>, steps: seq<Step>, i: nat, x: Id, y: Id)
    requires IsRun(states, steps) && i < |states|
    requires x in states[i].starts && y in states[i].starts
    requires PastLoop(states[i].starts[x]) && PastLoop(states[i].starts[y])
    ensures x == y && !states[i].crashed
  {
    RunKeepsInv(states, steps, i);
  }

  // No channel is ever closed twice, whatever the interleaving.
  lemma NeverClosedTwice(states: seq<State>, steps: seq<Step>, i: nat)
    requires IsRun(states, steps) && i < |states|
    ensures !states[i].crashed
  {
    RunKeepsInv(states, steps, i);
  }

  // Closing the synchro or losing the current channel is final for Run.
  lemma {:induction false} ReturnedIsFinal(states: seq<State>, steps: seq<Step>, i: nat, j: nat)
    requires IsRun(states, steps) && i <= j < |states| && states[i].run.RunReturned?
    ensures states[j].run.RunReturned?
  {
    if i < j {
      ReturnedIsFinal(states, steps, i, j - 1);
    }
  }

  // Once Run has returned, no Start is past the admission loop, then or ever after.
  lemma NoneAfterRun(states: seq<State>, steps: seq<Step>, i: nat, j: nat, x: Id)
    requires IsRun(states, steps) && i <= j < |states| && states[i].run.RunReturned?
    requires x in states[j].starts
    ensures !PastLoop(states[j].starts[x])
  {
    ReturnedIsFinal(states, steps, i, j);
    RunKeepsInv(states, steps, j);
  }

  lemma Extend(states: seq<State>, steps: seq<Step>, a: Step)
    requires IsRun(states, steps) && Enabled(states[|states| - 1], a)
    ensures IsRun(states + [Next(states[|states| - 1], a)], steps + [a])
  {
  }

  lemma ReturnAndFinish(states: seq<State>, steps: seq<Step>, id: Id) returns (more: seq<State>, path: seq<Step>)
    requires IsRun(states, steps) && states[|states| - 1].run.WaitStop?
    requires At(states[|states| - 1], id, Running(states[|states| - 1].stopped, false))
    ensures IsRun(more, path) && states <= more && more[|more| - 1].run.RunReturned?
  {
    var s := states[|states| - 1];
    Extend(states, steps, Return(id));
    more, path := states + [Next(s, Return(id))], steps + [Return(id)];
    Extend(more, path, FinishRun);
    more, path := more + [Next(more[|more| - 1], FinishRun)], path + [FinishRun];
  }

  // Run never waits for nobody: when it holds the lock, the one Start that is still past the loop
  // can stop its informer and return without the lock, and then Run returns.
  lemma WaitingRunCanReturn(states: seq<State>, steps: seq<Step>) returns (more: seq<State>, path: seq<Step>)
    requires IsRun(states, steps) && states[|states| - 1].run.WaitStop?
    ensures IsRun(more, path) && states <= more && more[|more| - 1].run.RunReturned?
  {
    RunKeepsInv(states, steps, |states| - 1);
    var s := states[|states| - 1];
    if s.stopped in s.closed {
      Extend(states, steps, FinishRun);
      more, path := states + [Next(s, FinishRun)], steps + [FinishRun];
    } else {
      var id :| id in s.starts && PastLoop(s.starts[id]);
      if At(s, id, Running(s.stopped, false)) {
        more, path := ReturnAndFinish(states, steps, id);
      } else {
        var a := if s.starts[id].Admitted? then Defer(id) else InformerOff(id);
        Extend(states, steps, a);
        more, path := ReturnAndFinish(states + [Next(s, a)], steps + [a], id);
      }
    }
  }

  // ---------------------------------------------------------------------------------------------
  // A Start that may run gets to run.

  // Every channel but the current one is closed, and a Start waits for one that has been made.
  ghost predicate WaitsForMade(s: State) {
    && (forall ch: nat :: ch < s.made && ch != s.stopped ==> ch in s.closed)
    && (forall id :: id in s.starts && s.starts[id].Waiting? && s.starts[id].on.Some? ==>
          s.starts[id].on.value < s.made)
  }

  lemma {:induction false} RunWaitsForMade(states: seq<State>, steps: seq<Step>, i: nat)
    requires IsRun(states, steps) && i < |states|
    ensures WaitsForMade(states[i])
  {
    if i > 0 {
      RunWaitsForMade(states, steps, i - 1);
      RunKeepsInv(states, steps, i - 1);
      StepWaitsForMade(states[i - 1], steps[i - 1]);
    }
  }

  lemma StepWaitsForMade(s: State, a: Step)
    requires Inv(s) && WaitsForMade(s) && Enabled(s, a)
    ensures WaitsForMade(Next(s, a))
  {
  }

  // The Start is on its way to the loop and has not been told to stop.
  predicate OnItsWay(s: State, id: Id) {
    id in s.starts && (s.starts[id].Entered? || s.starts[id].Locking? || s.starts[id] == Admitted
                       || (s.starts[id].Waiting? && s.starts[id].on.Some?))
  }

  predicate OwnStep(a: Step, id: Id) {
    a == ReadStopped(id) || a == Wake(id) || a == Try(id, false) || a == Defer(id) || a == InformerOn(id)
  }

  // The next step of such a Start, if it is not told to stop.
  function Onward(s: State, id: Id): Step
    requires OnItsWay(s, id)
  {
    match s.starts[id]
    case Entered => ReadStopped(id)
    case Waiting(_) => Wake(id)
    case Locking => Try(id, false)
    case _ => Defer(id)
  }

  function Distance(pc: StartPc): nat {
    match pc
    case Entered => 4
    case Waiting(_) => 3
    case Locking => 2
    case Admitted => 1
    case _ => 0
  }

  // While events are processed, the synchro is not closed and no other Start is past the loop, each of its
  // steps is possible and brings it closer.
  lemma OnwardGoes(s: State, id: Id)
    requires Inv(s) && WaitsForMade(s) && s.run.Processing? && !s.closer && OnItsWay(s, id)
    requires forall x :: x in s.starts && PastLoop(s.starts[x]) ==> x == id
    ensures Enabled(s, Onward(s, id))
    ensures var t := Next(s, Onward(s, id));
            && id in t.starts && Distance(t.starts[id]) < Distance(s.starts[id])
            && (OnItsWay(t, id) || t.starts[id] == Running(t.stopped, false))
            && t.run.Processing? && !t.closer && (forall x :: x in t.starts && PastLoop(t.starts[x]) ==> x == id)
  {
    if !PastLoop(s.starts[id]) {
      assert s.stopped in s.closed;
    }
  }

  // In every state of every run in which events are processed, the synchro is not closed and no other Start
  // is past the loop, a Start that has not been told to stop runs its informer after its own steps alone.
  lemma {:induction false} StartGetsToRun(states: seq<State>, steps: seq<Step>, id: Id)
    returns (more: seq<State>, path: seq<Step>)
    requires IsRun(states, steps)
    requires var s := states[|states| - 1];
             && s.run.Processing? && !s.closer && (OnItsWay(s, id) || At(s, id, Running(s.stopped, false)))
             && forall x :: x in s.starts && PastLoop(s.starts[x]) ==> x == id
    ensures IsRun(more, path) && states <= more && At(more[|more| - 1], id, Running(more[|more| - 1].stopped, true))
    ensures steps <= path && forall i :: |steps| <= i < |path| ==> OwnStep(path[i], id)
    decreases Distance(states[|states| - 1].starts[id])
  {
    var s := states[|states| - 1];
    if OnItsWay(s, id) {
      RunKeepsInv(states, steps, |states| - 1);
      RunWaitsForMade(states, steps, |states| - 1);
      OnwardGoes(s, id);
      Extend(states, steps, Onward(s, id));
      more, path := StartGetsToRun(states + [Next(s, Onward(s, id))], steps + [Onward(s, id)], id);
    } else {
      Extend(states, steps, InformerOn(id));
      more, path := states + [Next(s, InformerOn(id))], steps + [InformerOn(id)];
    }
  }
}
