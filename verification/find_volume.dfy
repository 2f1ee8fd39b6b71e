/** The parallel search for the volume that has a key: one worker for each volume, a closer, and the caller. */
module FindVolume {
  import opened Types

  /** What a volume answers when it is asked for the key. */
  datatype Answer = No | Failed | Yes(vid: string)

  /** A worker asks its volume, offers a positive answer on the channel, and signs off from the wait group. */
  datatype Worker = Asking | Offering(vid: string) | Leaving | Gone

  datatype Message = Message(worker: nat, vid: string)

  /** The caller waits on the channel; it then holds a message, or nothing when the channel was closed, and returns. */
  datatype Caller = Receiving | Holding(m: Option<Message>) | Returned(m: Option<Message>)

  datatype State = State(
    workers: seq<Worker>,
    answers: seq<Option<Answer>>,
    waitGroup: int,
    closerDone: bool,
    closed: bool,
    caller: Caller,
    received: nat,
    cancelled: bool,
    parentCancelled: bool)

  function Initial(n: nat): State {
    State(seq(n, _ => Asking), seq(n, _ => None), n, false, false, Receiving, 0, false, false)
  }

  datatype Step =
    | Reply(i: nat, a: Answer)
    | Deliver(i: nat)
    | GiveUp(i: nat)
    | SignOff(i: nat)
    | CloseChannel
    | ReceiveClosed
    | CancelAndReturn
    | CancelParent

  predicate Enabled(s: State, step: Step) {
    match step
    case Reply(i, _) => i < |s.workers| && s.workers[i].Asking?
    case Deliver(i) => i < |s.workers| && s.workers[i].Offering? && s.caller.Receiving? && !s.closed
    case GiveUp(i) => i < |s.workers| && s.workers[i].Offering? && (s.cancelled || s.parentCancelled)
    case SignOff(i) => i < |s.workers| && s.workers[i].Leaving?
    case CloseChannel => !s.closerDone && s.waitGroup == 0
    case ReceiveClosed => s.caller.Receiving? && s.closed
    case CancelAndReturn => s.caller.Holding?
    case CancelParent => !s.parentCancelled
  }

  function Next(s: State, step: Step): State
    requires Enabled(s, step) && |s.answers| == |s.workers|
  {
    match step
    case Reply(i, a) =>
      s.(workers := s.workers[i := if a.Yes? then Offering(a.vid) else Leaving], answers := s.answers[i := Some(a)])
    case Deliver(i) =>
      s.(workers := s.workers[i := Leaving], caller := Holding(Some(Message(i, s.workers[i].vid))),
         received := s.received + 1)
    case GiveUp(i) => s.(workers := s.workers[i := Leaving])
    case SignOff(i) => s.(workers := s.workers[i := Gone], waitGroup := s.waitGroup - 1)
    case CloseChannel => s.(closed := true, closerDone := true)
    case ReceiveClosed => s.(caller := Holding(None))
    case CancelAndReturn => s.(caller := Returned(s.caller.m), cancelled := true)
    case CancelParent => s.(parentCancelled := true)
  }

  // ---------------------------------------------------------------- What every step keeps

  function Present(ws: seq<Worker>): nat {
    if ws == [] then 0 else (if ws[0].Gone? then 0 else 1) + Present(ws[1..])
  }

  lemma {:induction false} PresentUpdate(ws: seq<Worker>, i: nat, w: Worker)
    requires i < |ws|
    ensures Present(ws[i := w]) == Present(ws) - (if ws[i].Gone? then 0 else 1) + (if w.Gone? then 0 else 1)
  {
    if i == 0 {
      assert ws[0 := w][1..] == ws[1..];
    } else {
      PresentUpdate(ws[1..], i - 1, w);
      assert ws[i := w][1..] == ws[1..][i - 1 := w];
    }
  }

  lemma {:induction false} NobodyPresent(ws: seq<Worker>)
    ensures Present(ws) == 0 <==> forall i | 0 <= i < |ws| :: ws[i].Gone?
  {
    if ws != [] {
      NobodyPresent(ws[1..]);
      assert forall i | 0 < i < |ws| :: ws[i] == ws[1..][i - 1];
    }
  }

  lemma {:induction false} AllPresent(ws: seq<Worker>)
    requires forall i | 0 <= i < |ws| :: ws[i].Asking?
    ensures Present(ws) == |ws|
  {
    if ws != [] {
      AllPresent(ws[1..]);
    }
  }

  function Outcome(c: Caller): Option<Message> {
    if c.Receiving? then None else c.m
  }

  /** How the phase of a worker and its volume's answer belong together. */
  ghost predicate GoodWorker(s: State, i: nat)
    requires i < |s.workers| == |s.answers|
  {
    && (s.workers[i].Asking? <==> s.answers[i].None?)
    && (s.workers[i].Offering? ==> s.answers[i] == Some(Yes(s.workers[i].vid)))
    && ((s.workers[i].Leaving? || s.workers[i].Gone?) && s.answers[i].Some? && s.answers[i].value.Yes? ==>
          Outcome(s.caller).Some? || s.parentCancelled)
  }

  ghost predicate Inv(s: State) {
    && |s.answers| == |s.workers| && s.waitGroup == Present(s.workers)
    && (s.closed <==> s.closerDone) && (s.closed ==> s.waitGroup == 0)
    && (s.cancelled <==> s.caller.Returned?)
    && (forall i | 0 <= i < |s.workers| :: GoodWorker(s, i))
    && (Outcome(s.caller).Some? ==>
          var m := Outcome(s.caller).value;
          m.worker < |s.answers| && s.answers[m.worker] == Some(Yes(m.vid)))
    && (!s.caller.Receiving? && Outcome(s.caller).None? ==> s.closed)
    && s.received == (if Outcome(s.caller).Some? then 1 else 0)
  }

  lemma InitialInv(n: nat)
    ensures Inv(Initial(n))
  {
    AllPresent(Initial(n).workers);
  }

  /** The channel is closed only when every worker has signed off. */
  lemma ClosedMeansGone(s: State)
    requires Inv(s) && s.closed
    ensures forall i | 0 <= i < |s.workers| :: s.workers[i].Gone?
  {
    NobodyPresent(s.workers);
  }

  lemma NextKeeps(s: State, step: Step)
    requires Inv(s) && Enabled(s, step)
    ensures Inv(Next(s, step))
  {
    if s.closed {
      ClosedMeansGone(s);
    }
    match step {
      case Reply(i, a) =>
        assert GoodWorker(s, i);
        PresentUpdate(s.workers, i, if a.Yes? then Offering(a.vid) else Leaving);
      case Deliver(i) =>
        assert GoodWorker(s, i);
        PresentUpdate(s.workers, i, Leaving);
      case GiveUp(i) => PresentUpdate(s.workers, i, Leaving);
      case SignOff(i) => PresentUpdate(s.workers, i, Gone);
      case _ =>
    }
    forall i | 0 <= i < |s.workers|
      ensures GoodWorker(Next(s, step), i)
    {
      WorkerKeeps(s, step, i);
    }
  }

  lemma WorkerKeeps(s: State, step: Step, i: nat)
    requires Inv(s) && Enabled(s, step) && i < |s.workers|
    ensures GoodWorker(Next(s, step), i)
  {
    assert GoodWorker(s, i);
    if s.closed {
      ClosedMeansGone(s);
    }
  }

  // ---------------------------------------------------------------- Whole runs

  /** The states of a run, one after the other, for any interleaving of the steps. */
  ghost predicate IsRun(n: nat, states: seq<State>, steps: seq<Step>) {
    && |states| == |steps| + 1 && states[0] == Initial(n)
    && forall k | 0 <= k < |steps| ::
         |states[k].answers| == |states[k].workers| && Enabled(states[k], steps[k]) &&
         states[k + 1] == Next(states[k], steps[k])
  }

  lemma {:induction false} RunInv(n: nat, states: seq<State>, steps: seq<Step>, k: nat)
    requires IsRun(n, states, steps) && k < |states|
    ensures Inv(states[k]) && |states[k].workers| == n
  {
    if k == 0 {
      InitialInv(n);
    } else {
      RunInv(n, states, steps, k - 1);
      NextKeeps(states[k - 1], steps[k - 1]);
    }
  }

  /**
   * In every state of every run: a message that the caller holds names a volume that answered yes with just that ID;
   * nobody can be about to send on the closed channel; and the caller received one message at most.
   */
  lemma RunSafe(n: nat, states: seq<State>, steps: seq<Step>, k: nat)
    requires IsRun(n, states, steps) && k < |states|
    ensures var s := states[k];
            && (Outcome(s.caller).Some? ==>
                  var m := Outcome(s.caller).value;
                  m.worker < |s.answers| && s.answers[m.worker] == Some(Yes(m.vid)))
            && (s.closed ==> forall i | 0 <= i < |s.workers| :: !s.workers[i].Offering? && !s.workers[i].Asking?)
            && s.received <= 1 && s.waitGroup >= 0
  {
    RunInv(n, states, steps, k);
    if states[k].closed {
      ClosedMeansGone(states[k]);
    }
  }

  /**
   * Under a live parent the call finds a volume exactly when some volume answered yes; "not found" means that every
   * volume answered, and none with yes.
   */
  lemma FoundExactly(n: nat, states: seq<State>, steps: seq<Step>, k: nat)
    requires IsRun(n, states, steps) && k < |states|
    requires !states[k].caller.Receiving? && !states[k].parentCancelled
    ensures var s := states[k];
            && (Outcome(s.caller).Some? <==>
                exists i :: 0 <= i < |s.answers| && s.answers[i].Some? && s.answers[i].value.Yes?)
            && (Outcome(s.caller).None? ==>
                  forall i | 0 <= i < |s.answers| :: s.answers[i] == Some(No) || s.answers[i] == Some(Failed))
  {
    var s := states[k];
    RunInv(n, states, steps, k);
    if Outcome(s.caller).None? {
      ClosedMeansGone(s);
      forall i | 0 <= i < |s.answers|
        ensures s.answers[i] == Some(No) || s.answers[i] == Some(Failed)
      {
        assert GoodWorker(s, i);
      }
    }
  }

  /** A cancelled parent can make the search miss a volume that has the key. */
  lemma CancelledParentMisses() returns (states: seq<State>, steps: seq<Step>)
    ensures IsRun(1, states, steps)
    ensures var s := states[|states| - 1];
            s.caller == Returned(None) && s.answers == [Some(Yes("v"))]
  {
    steps := [Reply(0, Yes("v")), CancelParent, GiveUp(0), SignOff(0), CloseChannel, ReceiveClosed, CancelAndReturn];
    var s0 := Initial(1);
    assert s0.workers == [Asking] && s0.answers == [None];
    var s1 := Next(s0, steps[0]);
    assert s1.workers == [Offering("v")] && s1.answers == [Some(Yes("v"))];
    var s2 := Next(s1, steps[1]);
    var s3 := Next(s2, steps[2]);
    assert s3.workers == [Leaving];
    var s4 := Next(s3, steps[3]);
    var s5 := Next(s4, steps[4]);
    var s6 := Next(s5, steps[5]);
    var s7 := Next(s6, steps[6]);
    states := [s0, s1, s2, s3, s4, s5, s6, s7];
  }

  // ---------------------------------------------------------------- Every run comes to an end

  function WorkerRank(w: Worker): nat {
    match w
    case Asking => 3
    case Offering(_) => 2
    case Leaving => 1
    case Gone => 0
  }

  function Ranks(ws: seq<Worker>): nat {
    if ws == [] then 0 else WorkerRank(ws[0]) + Ranks(ws[1..])
  }

  lemma {:induction false} RanksUpdate(ws: seq<Worker>, i: nat, w: Worker)
    requires i < |ws|
    ensures Ranks(ws[i := w]) == Ranks(ws) - WorkerRank(ws[i]) + WorkerRank(w)
  {
    if i == 0 {
      assert ws[0 := w][1..] == ws[1..];
    } else {
      RanksUpdate(ws[1..], i - 1, w);
      assert ws[i := w][1..] == ws[1..][i - 1 := w];
    }
  }

  lemma {:induction false} RanksAtStart(ws: seq<Worker>)
    requires forall i | 0 <= i < |ws| :: ws[i].Asking?
    ensures Ranks(ws) == 3 * |ws|
  {
    if ws != [] {
      RanksAtStart(ws[1..]);
    }
  }

  /** The steps that are still possible. */
  function Measure(s: State): nat {
    Ranks(s.workers) + (if s.closerDone then 0 else 1) + (if s.parentCancelled then 0 else 1)
    + (match s.caller case Receiving => 2 case Holding(_) => 1 case Returned(_) => 0)
  }

  lemma NextDecreases(s: State, step: Step)
    requires Inv(s) && Enabled(s, step)
    ensures Measure(Next(s, step)) < Measure(s)
  {
    match step
    case Reply(i, a) => RanksUpdate(s.workers, i, if a.Yes? then Offering(a.vid) else Leaving);
    case Deliver(i) => RanksUpdate(s.workers, i, Leaving);
    case GiveUp(i) => RanksUpdate(s.workers, i, Leaving);
    case SignOff(i) => RanksUpdate(s.workers, i, Gone);
    case _ =>
  }

  /** The call has returned, and the workers and the closer have finished. */
  ghost predicate Finished(s: State) {
    s.caller.Returned? && s.closerDone && forall i | 0 <= i < |s.workers| :: s.workers[i].Gone?
  }

  /** As long as anything is unfinished, somebody can take a step other than cancelling the parent. */
  lemma NobodyIsStuck(s: State) returns (step: Step)
    requires Inv(s) && !Finished(s)
    ensures Enabled(s, step) && !step.CancelParent?
  {
    if i: nat :| i < |s.workers| && s.workers[i].Asking? {
      step := Reply(i, No);
    } else if i: nat :| i < |s.workers| && s.workers[i].Leaving? {
      step := SignOff(i);
    } else if s.caller.Holding? {
      step := CancelAndReturn;
    } else if i: nat :| i < |s.workers| && s.workers[i].Offering? {
      if s.closed {
        ClosedMeansGone(s);
      }
      step := if s.caller.Receiving? then Deliver(i) else GiveUp(i);
    } else {
      NobodyPresent(s.workers);
      step := if !s.closerDone then CloseChannel else ReceiveClosed;
    }
  }

  lemma {:induction false} StepsLeft(n: nat, states: seq<State>, steps: seq<Step>, k: nat)
    requires IsRun(n, states, steps) && k < |states|
    ensures k + Measure(states[k]) <= 3 * n + 4
  {
    if k == 0 {
      RanksAtStart(Initial(n).workers);
    } else {
      StepsLeft(n, states, steps, k - 1);
      RunInv(n, states, steps, k - 1);
      NextDecreases(states[k - 1], steps[k - 1]);
    }
  }

  /**
   * No run over `n` volumes takes more than 3n + 4 steps, and a run that cannot go on has ended as it should: the call
   * has returned and nothing is left behind.
   */
  lemma RunsEnd(n: nat, states: seq<State>, steps: seq<Step>)
    requires IsRun(n, states, steps)
    ensures |steps| <= 3 * n + 4
    ensures (forall step | Enabled(states[|steps|], step) :: step.CancelParent?) ==> Finished(states[|steps|])
  {
    StepsLeft(n, states, steps, |steps|);
    RunInv(n, states, steps, |steps|);
    if !Finished(states[|steps|]) {
      var step := NobodyIsStuck(states[|steps|]);
    }
  }
}
