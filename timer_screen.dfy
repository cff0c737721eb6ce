/** The decision rules of `TimerScreen`: the play/pause toggle, the close,
    back and finish handlers (stop the session, then hand the pre-stop
    elapsed time to `onFinish`, only once something has elapsed), the
    visibility of the finish button and the status line. The screen reads
    the view model's mirrored `elapsedTime` and `isRunning`. */
module TimerScreenRules {
  import opened Common
  import opened Timer
  import opened TimerController

  /** The arguments of an `onFinish(duration, habitId)` call. */
  datatype Finish = Finish(duration: int, habitId: int)

  /** The status line under the controls. */
  function StatusText(isRunning: bool, elapsedTime: int): (r: string)
    ensures isRunning ==> r == "Focus time..."
    ensures !isRunning && elapsedTime > 0 ==> r == "Paused"
    ensures !isRunning && elapsedTime <= 0 ==> r == "Ready to start"
  {
    if isRunning then "Focus time..."
    else if elapsedTime > 0 then "Paused"
    else "Ready to start"
  }

  /** The three status texts are distinct, so the line tells the three
      situations apart. */
  lemma StatusTextDistinguishes(r1: bool, e1: int, r2: bool, e2: int)
    requires StatusText(r1, e1) == StatusText(r2, e2)
    ensures r1 == r2 && (!r1 ==> (e1 > 0 <==> e2 > 0))
  {
  }

  /** The finish button is composed only once time has elapsed. */
  predicate FinishVisible(elapsedTime: int) {
    elapsedTime > 0
  }

  /** Whenever the finish button is shown, the status line is not
      "Ready to start". */
  lemma FinishVisibleNotReady(isRunning: bool, elapsedTime: int)
    requires FinishVisible(elapsedTime)
    ensures StatusText(isRunning, elapsedTime) != "Ready to start"
  {
  }

  /** The play/pause button: pause when running, otherwise start with the
      screen's habit name. */
  method PlayPauseClicked(vm: TimerViewModel, habitName: string, now: int)
    modifies vm.timerService
    ensures vm.timerService != null && vm.isRunning ==>
      vm.timerService.State() == Pause(old(vm.timerService.State()))
    ensures vm.timerService != null && !vm.isRunning ==>
      vm.timerService.State() == Start(old(vm.timerService.State()), habitName, now)
  {
    if vm.isRunning {
      vm.PauseTimer();
    } else {
      vm.StartTimer(habitName, now);
    }
  }

  /** The close and finish buttons: with nothing elapsed, nothing happens;
      otherwise the session is stopped and then `onFinish` receives the
      elapsed value read before the stop. The close button tests
      `elapsedTime > 0` itself; the finish button has no such test but is
      composed only when `FinishVisible` holds, so any click on it meets the
      same guard and takes the second branch. */
  method CloseOrFinishClicked(vm: TimerViewModel, habitId: int) returns (finished: Option<Finish>)
    modifies vm.timerService
    ensures old(vm.elapsedTime) <= 0 ==> finished == None && (vm.timerService != null ==> vm.timerService.State() == old(vm.timerService.State()))
    ensures old(vm.elapsedTime) > 0 ==> finished == Some(Finish(old(vm.elapsedTime), habitId))
    ensures old(vm.elapsedTime) > 0 && vm.timerService != null ==>
      vm.timerService.State() == Stop(old(vm.timerService.State()))
  {
    if vm.elapsedTime > 0 {
      var duration := vm.elapsedTime;
      vm.StopTimer();
      finished := Some(Finish(duration, habitId));
    } else {
      finished := None;
    }
  }

  /** The back handler: the same rule, and the back press is consumed in
      either case (the screen is never left with nothing elapsed). */
  method BackPressed(vm: TimerViewModel, habitId: int) returns (consumed: bool, finished: Option<Finish>)
    modifies vm.timerService
    ensures consumed
    ensures old(vm.elapsedTime) <= 0 ==> finished == None && (vm.timerService != null ==> vm.timerService.State() == old(vm.timerService.State()))
    ensures old(vm.elapsedTime) > 0 ==> finished == Some(Finish(old(vm.elapsedTime), habitId))
    ensures old(vm.elapsedTime) > 0 && vm.timerService != null ==>
      vm.timerService.State() == Stop(old(vm.timerService.State()))
  {
    consumed := true;
    finished := CloseOrFinishClicked(vm, habitId);
  }
}
