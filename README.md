# PD controller model

A Dafny model of `PDController` from `uuv_mission/control.py`: a discrete-time
Proportional-Derivative controller for an unmanned underwater vehicle's
closed loop. The controller holds a proportional gain `kp`, a derivative gain
`kd` and a sample interval `dt`, all fixed at construction, and one piece of
mutable state, the previous error (`_last_error`), which is absent before the
first call and after a reset.

- `control(reference, observation)` computes the error
  `e = reference - observation`, takes a zero derivative when there is no
  previous error and `(e - last)/dt` otherwise, returns `kp*e + kd*derivative`,
  and stores `e` as the previous error.
- `reset()` clears the previous error.

`control.dfy` (module `Control`) holds:

- `Derivative` and `Action`: the pure formula of one step;
- `Run`: the reference semantics of a whole sequence of `control`/`reset`
  calls (`Step`s), returning every action and the final previous-error state,
  with the lemmas about call sequences (reset re-arms, reset is idempotent,
  reset forgets history, zero error is a fixed point);
- class `PDController`, with the source's fields, one constructor with the source's default arguments and the two methods, each
  proved against `Run` of a single step;
- `WorkedTrace`, the worked example with the default parameters as a verified
  client of the class.

Python floats are modelled as `real`, so the formula and the worked numbers
hold exactly.

## Model

| member | source | states |
|---|---|---|
| `Control.PDController.constructor` | uuv_mission/control.py:20-24 | the gains and interval are the given arguments, by default kp = 0.15, kd = 0.6, dt = 1, and the previous error is absent |
| `Control.PDController.Control` | uuv_mission/control.py:26-39 | the returned action is kp*e without history and kp*e + kd*(e - last)/dt with history, e = reference - observation; afterwards the previous error is e; kp, kd, dt are unchanged; the call is one step of `Run` |
| `Control.PDController.Reset` | uuv_mission/control.py:41-43 | the previous error becomes absent and nothing else changes; the call is one step of `Run` |
| `Control.Derivative` | uuv_mission/control.py:32-35 | zero without history; with history, the derivative times dt is the change of the error |
| `Control.Action` | uuv_mission/control.py:27-37 | the action is kp*e without history and kp*e + kd*(e - last)/dt with history; a zero error with zero or no history gives a zero action |
| `Control.Run` | uuv_mission/control.py:26-43 | after a sequence of calls the previous error is absent if the last call was a reset and holds that call's error if it was a control call; with no calls the state is unchanged |
| `Control.RunAppend` | uuv_mission/control.py:26-43 | the state carried between calls is exactly the previous error: running two call sequences back to back equals running the second from the state the first leaves |
| `Control.RunActionCount` | uuv_mission/control.py:26-39 | every control call returns exactly one action and a reset returns none |
| `Control.SingleCall` | uuv_mission/control.py:31-38 | one control call from any history returns one action given by the formula and stores its error |
| `Control.FirstCall` | uuv_mission/control.py:29-37 | the first call without history returns kp*(reference - observation) and stores that error |
| `Control.SuccessiveCalls` | uuv_mission/control.py:31-38 | two successive calls from any history: the first action is that of the history, the second takes the first call's error as its history (kp*e2 + kd*(e2 - e1)/dt), and e2 is stored |
| `Control.SecondCall` | uuv_mission/control.py:27-38 | two successive calls with errors e1, e2 on a fresh controller return kp*e1 and kp*e2 + kd*(e2 - e1)/dt |
| `Control.ResetRearms` | uuv_mission/control.py:41-43 | after any history, a reset followed by a call with error e returns kp*e |
| `Control.ResetForgetsHistory` | uuv_mission/control.py:41-43 | the actions after a reset are those of a fresh controller, whatever came before |
| `Control.ResetIdempotent` | uuv_mission/control.py:41-43 | two resets in a row leave every later action and the final state as one reset does |
| `Control.ZeroErrorFixedPoint` | uuv_mission/control.py:31-38 | if every call has reference equal to observation, every action is zero, whatever the gains and the number of calls |
| `Control.WorkedTrace` | uuv_mission/control.py:20-43 | with the default parameters, control(10, 0) returns 1.5, control(10, 2) then returns 0, and after a reset control(10, 2) returns 1.2 |

## Left out

- Floating point: rounding, NaN and infinity are not modelled; every quantity is a `real`, and the `float(...)` coercions of the source are identities (the model does not capture that `float` also accepts numeric strings).
- Control.PDController.constructor: requires `dt != 0.0`, which the source does not check. In the source a zero interval is accepted; the first call after construction or a reset succeeds, and every call made while a previous error is stored raises `ZeroDivisionError` before the error is stored, so the state is left unchanged and later calls keep failing until `reset()`. The model rules that configuration out at construction instead of modelling the exception. `Derivative` and `Action` themselves require a non-zero interval only when there is history, as the source divides only then.
- The closed-loop driver that calls the controller, the vehicle and plant model, plotting and mission loading are not part of this model.
- Concurrency: the controller is used by one control loop at a time, and the model is sequential.
- Python lets callers reassign the public attributes `kp`, `kd` and `dt`; the model has no operation that does so, as the source defines none.
