/** `TimerViewModel`: the screen's controller over a bound `TimerService`.
    It holds an optional handle to the service and `isBound`, forwards
    commands through the handle (dropping them while it is null), and mirrors
    the service's published elapsed time and running flag. The binding
    handshake is reduced to explicit connect and disconnect calls; the flow
    collectors are reduced to an explicit `Collect` step. */
module TimerController {
  import opened Text
  import opened Timer

  class TimerViewModel {
    /** The handle set by `onServiceConnected`, cleared on disconnect. */
    var timerService: TimerService?
    var isBound: bool
    /** Mirrored `_elapsedTime` and `_isRunning`. */
    var elapsedTime: int
    var isRunning: bool
    /** The service whose flows the collectors launched at the last connect
        are reading; they keep running after a disconnect and stop only
        when the view model is cleared. */
    var source: TimerService?

    /** `init`: only asks for a binding; nothing is connected yet. */
    constructor ()
      ensures timerService == null && !isBound && source == null
      ensures elapsedTime == 0 && !isRunning
    {
      timerService, isBound, source := null, false, null;
      elapsedTime, isRunning := 0, false;
    }

    /** `onServiceConnected`: take the handle and start collecting. */
    method OnServiceConnected(service: TimerService)
      modifies this
      ensures timerService == service && isBound && source == service
      ensures elapsedTime == old(elapsedTime) && isRunning == old(isRunning)
    {
      timerService := service;
      isBound := true;
      source := service;
    }

    /** `onServiceDisconnected`: drop the handle. The collectors are not
        cancelled. */
    method OnServiceDisconnected()
      modifies this
      ensures timerService == null && !isBound
      ensures source == old(source) && elapsedTime == old(elapsedTime) && isRunning == old(isRunning)
    {
      isBound := false;
      timerService := null;
    }

    /** The collectors deliver the service's current published values. */
    method Collect()
      modifies this
      ensures source == null ==> elapsedTime == old(elapsedTime) && isRunning == old(isRunning)
      ensures source != null ==> elapsedTime == source.elapsed && isRunning == source.running
      ensures timerService == old(timerService) && isBound == old(isBound) && source == old(source)
    {
      if source != null {
        elapsedTime := source.elapsed;
        isRunning := source.running;
      }
    }

    /** `startTimer(habitName)`: forwarded when a handle is present. Only
        the handle's object may change, so with no handle nothing does. */
    method StartTimer(habitName: string, now: int)
      modifies timerService
      ensures timerService != null ==> timerService.State() == Start(old(timerService.State()), habitName, now)
    {
      if timerService != null {
        timerService.StartTimer(habitName, now);
      }
    }

    /** `stopTimer()`: forwarded when a handle is present. */
    method StopTimer()
      modifies timerService
      ensures timerService != null ==> timerService.State() == Stop(old(timerService.State()))
    {
      if timerService != null {
        timerService.StopTimer();
      }
    }

    /** `pauseTimer()`: forwarded when a handle is present. */
    method PauseTimer()
      modifies timerService
      ensures timerService != null ==> timerService.State() == Pause(old(timerService.State()))
    {
      if timerService != null {
        timerService.PauseTimer();
      }
    }

    /** `onCleared`: unbinds if bound, and clearing the view model cancels
        `viewModelScope`, so the collectors stop and later service updates
        no longer reach the mirrors. The session is not stopped: the
        service is outside the frame, and the handle is not cleared, since
        unbinding does not call back `onServiceDisconnected`. */
    method OnCleared()
      modifies this
      ensures !isBound && source == null
      ensures timerService == old(timerService)
      ensures elapsedTime == old(elapsedTime) && isRunning == old(isRunning)
    {
      if isBound {
        isBound := false;
      }
      source := null;
    }
  }

  /** The view model's own copy of `formatTime`. */
  function FormatTime(millis: int): string {
    var seconds := Quot(millis, 1000);
    Pad2(Quot(seconds, 60)) + ":" + Pad2(Rem(seconds, 60))
  }

  /** The copy agrees with the service's formatter on every input. */
  lemma FormatTimeAgrees(millis: int)
    ensures FormatTime(millis) == Timer.FormatTime(millis)
  {
  }

  /** Commands issued while no service is connected are dropped, not
      queued: a connect after them finds the service as it was, and the
      first command after the connect acts on that state. */
  method DroppedThenConnected(vm: TimerViewModel, service: TimerService, habitName: string, t0: int, t1: int)
    requires vm.timerService == null
    modifies vm, service
    ensures service.State() == Start(old(service.State()), habitName, t1)
  {
    vm.StartTimer(habitName, t0);
    vm.PauseTimer();
    vm.StopTimer();
    assert service.State() == old(service.State());
    vm.OnServiceConnected(service);
    vm.StartTimer(habitName, t1);
  }
}
