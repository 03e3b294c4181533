/** The auto-submit state machine of `v-input` (`VInputAutoSubmitManager`).
    Its three timers are pending flags: scheduling sets a flag, clearing
    resets it, and the environment fires a pending timer by calling the
    matching `Fire...` method. The host's callbacks `isEnabled`, `isValid`
    and `getValue` become parameters of the methods that call them;
    `emitSubmit` and `onStateChange` become logs. */
module AutoSubmit {

  datatype SubmitState = Idle | Countdown | Submitting | Success | Error

  /** `VInputAutoSubmitResult`. */
  datatype SubmitResult = SubmitSucceeded | SubmitFailed

  /** `DEFAULT_AUTO_SUBMIT_STATUS_FADE_OUT_DELAY`, in milliseconds: how long
      the reset timer runs. */
  const StatusFadeOutDelay := 3000

  predicate IsOutcome(s: SubmitState) { s == Success || s == Error }

  class AutoSubmitManager {
    var state: SubmitState
    var lastSubmittedValue: string
    /** `countdownStartTimeoutId`, `delayTimeoutId`, `resetTimeoutId`, each
        read as "a timer is scheduled and has not yet run". */
    var countdownStartPending: bool
    var delayPending: bool
    var resetPending: bool
    /** The values passed to `emitSubmit`, oldest first. */
    var submitted: seq<string>
    /** The states passed to `onStateChange`, oldest first. */
    var stateChanges: seq<SubmitState>

    /** At most one timer is pending, and each pending timer matches the
        state it was scheduled in. */
    ghost predicate Valid()
      reads this
    {
      && (countdownStartPending ==> state == Idle && !delayPending && !resetPending)
      && (delayPending ==> state == Countdown && !resetPending)
      && (resetPending ==> IsOutcome(state))
    }

    predicate NoTimerPending()
      reads this
    {
      !countdownStartPending && !delayPending && !resetPending
    }

    constructor ()
      ensures Valid() && NoTimerPending()
      ensures state == Idle && lastSubmittedValue == "" && submitted == [] && stateChanges == []
    {
      state := Idle;
      lastSubmittedValue := "";
      countdownStartPending, delayPending, resetPending := false, false, false;
      submitted := [];
      stateChanges := [];
    }

    /** `destroy`: cancels every timer. */
    method Destroy()
      requires Valid()
      modifies this`countdownStartPending, this`delayPending, this`resetPending
      ensures Valid() && NoTimerPending()
    {
      countdownStartPending := false;
      delayPending := false;
      resetPending := false;
    }

    /** `writeValue`: records the value as already submitted, when enabled. */
    method WriteValue(enabled: bool, v: string)
      modifies this`lastSubmittedValue
      ensures lastSubmittedValue == if enabled then v else old(lastSubmittedValue)
    {
      if !enabled {
        return;
      }
      lastSubmittedValue := v;
    }

    /** `setState`: cancels a pending reset, enters `s`, reports it, and
        after an outcome schedules the reset to `Idle`. */
    method SetState(s: SubmitState)
      modifies this`state, this`resetPending, this`stateChanges
      ensures state == s && stateChanges == old(stateChanges) + [s]
      ensures resetPending == IsOutcome(s)
    {
      resetPending := false;
      state := s;
      stateChanges := stateChanges + [s];
      if s == Success || s == Error {
        resetPending := true;
      }
    }

    /** `handleChange`: a valid value other than the last submitted one
        restarts the countdown from `Idle`; anything else cancels it and
        returns to `Idle`, except that an outcome stays on screen. */
    method HandleChange(enabled: bool, valid: bool, current: string)
      requires Valid()
      modifies this
      ensures Valid()
      ensures lastSubmittedValue == old(lastSubmittedValue) && submitted == old(submitted)
      ensures !enabled || old(state) == Submitting ==>
                state == old(state) && countdownStartPending == old(countdownStartPending)
                && delayPending == old(delayPending) && resetPending == old(resetPending)
                && stateChanges == old(stateChanges)
      ensures enabled && old(state) != Submitting && valid && current != old(lastSubmittedValue) ==>
                state == Idle && countdownStartPending && !delayPending && !resetPending
                && stateChanges == old(stateChanges) + [Idle]
      ensures enabled && old(state) != Submitting && !(valid && current != old(lastSubmittedValue)) ==>
                !countdownStartPending && !delayPending
                && (if IsOutcome(old(state))
                    then state == old(state) && resetPending == old(resetPending) && stateChanges == old(stateChanges)
                    else state == Idle && !resetPending && stateChanges == old(stateChanges) + [Idle])
    {
      if !enabled {
        return;
      }
      if state == Submitting {
        return;
      }
      if valid && current != lastSubmittedValue {
        SetState(Idle);
        countdownStartPending := false;
        delayPending := false;
        countdownStartPending := true;
      } else {
        countdownStartPending := false;
        delayPending := false;
        if state != Success && state != Error {
          SetState(Idle);
        }
      }
    }

    /** `triggerSubmit`: when enabled, valid and not already submitting,
        cancels the countdown, enters `Submitting` and emits the value once. */
    method TriggerSubmit(enabled: bool, valid: bool, current: string)
      requires Valid()
      modifies this
      ensures Valid()
      ensures lastSubmittedValue == old(lastSubmittedValue)
      ensures !(enabled && valid && old(state) != Submitting) ==> unchanged(this)
      ensures enabled && valid && old(state) != Submitting ==>
                state == Submitting && submitted == old(submitted) + [current] && NoTimerPending()
                && stateChanges == old(stateChanges) + [Submitting]
    {
      if !enabled {
        return;
      }
      if !valid {
        return;
      }
      if state == Submitting {
        return;
      }
      countdownStartPending := false;
      delayPending := false;
      SetState(Submitting);
      submitted := submitted + [current];
    }

    /** `handleResult`: cancels the countdown and enters the outcome; a
        success also records the current value as submitted. There is no
        enabled check. */
    method HandleResult(result: SubmitResult, current: string)
      requires Valid()
      modifies this
      ensures Valid()
      ensures submitted == old(submitted)
      ensures !countdownStartPending && !delayPending && resetPending
      ensures result == SubmitSucceeded ==>
                state == Success && lastSubmittedValue == current && stateChanges == old(stateChanges) + [Success]
      ensures result == SubmitFailed ==>
                state == Error && lastSubmittedValue == old(lastSubmittedValue) && stateChanges == old(stateChanges) + [Error]
    {
      countdownStartPending := false;
      delayPending := false;
      if result == SubmitSucceeded {
        lastSubmittedValue := current;
        SetState(Success);
        return;
      }
      SetState(Error);
    }

    /** The countdown-start timer runs: enter `Countdown` and schedule the
        delay timer. */
    method FireCountdownStart()
      requires Valid() && countdownStartPending
      modifies this
      ensures Valid()
      ensures state == Countdown && delayPending && !countdownStartPending && !resetPending
      ensures stateChanges == old(stateChanges) + [Countdown]
      ensures submitted == old(submitted) && lastSubmittedValue == old(lastSubmittedValue)
    {
      countdownStartPending := false;
      SetState(Countdown);
      delayPending := false;
      delayPending := true;
    }

    /** The delay timer runs: submits only if still in `Countdown`. */
    method FireDelay(enabled: bool, valid: bool, current: string)
      requires Valid() && delayPending
      modifies this
      ensures Valid() && !delayPending
      ensures lastSubmittedValue == old(lastSubmittedValue)
      ensures enabled && valid ==>
                state == Submitting && submitted == old(submitted) + [current] && NoTimerPending()
                && stateChanges == old(stateChanges) + [Submitting]
      ensures !(enabled && valid) ==>
                state == Countdown && submitted == old(submitted) && NoTimerPending()
                && stateChanges == old(stateChanges)
    {
      delayPending := false;
      if state == Countdown {
        TriggerSubmit(enabled, valid, current);
      }
    }

    /** The reset timer runs: back to `Idle`. */
    method FireReset()
      requires Valid() && resetPending
      modifies this
      ensures Valid() && NoTimerPending()
      ensures state == Idle && stateChanges == old(stateChanges) + [Idle]
      ensures submitted == old(submitted) && lastSubmittedValue == old(lastSubmittedValue)
    {
      resetPending := false;
      SetState(Idle);
    }
  }
}
