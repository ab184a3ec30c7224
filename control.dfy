/** A discrete-time Proportional-Derivative controller.

    The controller keeps three parameters fixed at construction (the gains
    kp and kd and the sample interval dt) and one piece of mutable state,
    the error seen on the previous call (absent before the first call and
    after a reset). Floating-point quantities are modelled as `real`.
 */
module Control {

  /** The previous error: absent, or the real number stored by the last call. */
  datatype Option<+T> = None | Some(value: T)

  /** One call made on a controller by its driver. */
  datatype Step = ControlCall(reference: real, observation: real) | Reset
  {
    /** The instantaneous error of a `ControlCall`. */
    function Error(): real
      requires ControlCall?
    {
      reference - observation
    }
  }

  /** What a sequence of calls produces: the action of every
      `ControlCall`, in order, and the previous-error state left behind. */
  datatype Trace = Trace(actions: seq<real>, last: Option<real>)

  /** The discrete derivative of the error: zero without history, otherwise
      the change of the error over one sample interval. */
  function Derivative(dt: real, last: Option<real>, e: real): (d: real)
    requires last.Some? ==> dt != 0.0
    ensures last.None? ==> d == 0.0
    ensures last.Some? ==> d * dt == e - last.value
  {
    match last
    case None => 0.0
    case Some(prev) => (e - prev) / dt
  }

  /** The control action u = kp*e + kd*de/dt for the error e. */
  function Action(kp: real, kd: real, dt: real, last: Option<real>, e: real): (u: real)
    requires last.Some? ==> dt != 0.0
    ensures last.None? ==> u == kp * e
    ensures last.Some? ==> u == kp * e + kd * (e - last.value) / dt
    ensures e == 0.0 && last in {None, Some(0.0)} ==> u == 0.0
  {
    kp * e + kd * Derivative(dt, last, e)
  }

  /** The reference semantics of a sequence of calls on a controller with
      the given parameters, starting from the previous-error state `last`. */
  function Run(kp: real, kd: real, dt: real, last: Option<real>, steps: seq<Step>): (t: Trace)
    requires dt != 0.0
    ensures steps == [] ==> t == Trace([], last)
    ensures steps != [] && steps[|steps| - 1].Reset? ==> t.last == None
    ensures steps != [] && steps[|steps| - 1].ControlCall? ==> t.last == Some(steps[|steps| - 1].Error())
    decreases |steps|
  {
    if steps == [] then Trace([], last)
    else
      match steps[0]
      case Reset => Run(kp, kd, dt, None, steps[1..])
      case ControlCall(r, o) =>
        var e := r - o;
        var rest := Run(kp, kd, dt, Some(e), steps[1..]);
        Trace([Action(kp, kd, dt, last, e)] + rest.actions, rest.last)
  }

  /** Running two sequences back to back is running the second from the
      state the first leaves behind. */
  lemma {:induction false} RunAppend(kp: real, kd: real, dt: real, last: Option<real>, s: seq<Step>, t: seq<Step>)
    requires dt != 0.0
    ensures var first := Run(kp, kd, dt, last, s);
            var second := Run(kp, kd, dt, first.last, t);
            Run(kp, kd, dt, last, s + t) == Trace(first.actions + second.actions, second.last)
    decreases |s|
  {
    if s == [] {
      assert s + t == t;
    } else {
      assert (s + t)[1..] == s[1..] + t;
      match s[0]
      case Reset =>
        RunAppend(kp, kd, dt, None, s[1..], t);
      case ControlCall(r, o) =>
        RunAppend(kp, kd, dt, Some(r - o), s[1..], t);
    }
  }

  /** The number of `ControlCall`s in a sequence. */
  function ControlCount(steps: seq<Step>): nat
  {
    if steps == [] then 0
    else (if steps[0].ControlCall? then 1 else 0) + ControlCount(steps[1..])
  }

  /** A sequence of calls returns one action per `ControlCall`. */
  lemma {:induction false} RunActionCount(kp: real, kd: real, dt: real, last: Option<real>, steps: seq<Step>)
    requires dt != 0.0
    ensures |Run(kp, kd, dt, last, steps).actions| == ControlCount(steps)
    decreases |steps|
  {
    if steps != [] {
      match steps[0]
      case Reset => RunActionCount(kp, kd, dt, None, steps[1..]);
      case ControlCall(r, o) => RunActionCount(kp, kd, dt, Some(r - o), steps[1..]);
    }
  }

  /** One call from any history: its action is given by the history and
      its error, and the error is what is stored. */
  lemma SingleCall(kp: real, kd: real, dt: real, last: Option<real>, r: real, o: real)
    requires dt != 0.0
    ensures var t := Run(kp, kd, dt, last, [ControlCall(r, o)]);
            |t.actions| == 1 && t.actions[0] == Action(kp, kd, dt, last, r - o) && t.last == Some(r - o)
  {
    assert [ControlCall(r, o)][1..] == [];
  }

  /** The first call, on a fresh controller or one just reset, has a zero
      derivative: its action is kp times the error. */
  lemma FirstCall(kp: real, kd: real, dt: real, r: real, o: real)
    requires dt != 0.0
    ensures Run(kp, kd, dt, None, [ControlCall(r, o)]) == Trace([kp * (r - o)], Some(r - o))
  {
    SingleCall(kp, kd, dt, None, r, o);
  }

  /** Two successive calls from any history: the first action is given by
      that history, the second has e1 as its history (so, by the contract of
      `Action`, it is kp*e2 + kd*(e2 - e1)/dt), and e2 is stored. */
  lemma SuccessiveCalls(kp: real, kd: real, dt: real, last: Option<real>, r1: real, o1: real, r2: real, o2: real)
    requires dt != 0.0
    ensures var e1, e2 := r1 - o1, r2 - o2;
            var t := Run(kp, kd, dt, last, [ControlCall(r1, o1), ControlCall(r2, o2)]);
            |t.actions| == 2 && t.actions[0] == Action(kp, kd, dt, last, e1)
            && t.actions[1] == Action(kp, kd, dt, Some(e1), e2) && t.last == Some(e2)
  {
    RunAppend(kp, kd, dt, last, [ControlCall(r1, o1)], [ControlCall(r2, o2)]);
    assert [ControlCall(r1, o1)] + [ControlCall(r2, o2)] == [ControlCall(r1, o1), ControlCall(r2, o2)];
    SingleCall(kp, kd, dt, last, r1, o1);
    SingleCall(kp, kd, dt, Some(r1 - o1), r2, o2);
    var t := Run(kp, kd, dt, last, [ControlCall(r1, o1), ControlCall(r2, o2)]);
    assert |t.actions| == 2 && t.actions[0] == Action(kp, kd, dt, last, r1 - o1);
    assert t.actions[1] == Action(kp, kd, dt, Some(r1 - o1), r2 - o2);
  }

  /** Two successive calls with errors e1 then e2: the second action is
      kp*e2 + kd*(e2 - e1)/dt. */
  lemma SecondCall(kp: real, kd: real, dt: real, r1: real, o1: real, r2: real, o2: real)
    requires dt != 0.0
    ensures var e1, e2 := r1 - o1, r2 - o2;
            Run(kp, kd, dt, None, [ControlCall(r1, o1), ControlCall(r2, o2)])
              == Trace([kp * e1, kp * e2 + kd * (e2 - e1) / dt], Some(e2))
  {
    SuccessiveCalls(kp, kd, dt, None, r1, o1, r2, o2);
    var t := Run(kp, kd, dt, None, [ControlCall(r1, o1), ControlCall(r2, o2)]);
    assert t.actions[0] == kp * (r1 - o1);
    assert t.actions[1] == kp * (r2 - o2) + kd * ((r2 - o2) - (r1 - o1)) / dt;
  }

  /** Whatever calls came before, a reset followed by a call with error e
      yields kp*e, exactly as the first call of a fresh controller. */
  lemma {:induction false} ResetRearms(kp: real, kd: real, dt: real, last: Option<real>, before: seq<Step>, r: real, o: real)
    requires dt != 0.0
    ensures Run(kp, kd, dt, last, before + [Reset, ControlCall(r, o)])
              == Trace(Run(kp, kd, dt, last, before).actions + [kp * (r - o)], Some(r - o))
  {
    var tail := [Reset, ControlCall(r, o)];
    RunAppend(kp, kd, dt, last, before, tail);
    assert tail[1..] == [ControlCall(r, o)];
    FirstCall(kp, kd, dt, r, o);
  }

  /** After a reset, what follows does not depend on the history before it:
      the actions after the reset are those of a fresh controller. */
  lemma {:induction false} ResetForgetsHistory(kp: real, kd: real, dt: real, last: Option<real>, before: seq<Step>, after: seq<Step>)
    requires dt != 0.0
    ensures var prefix := Run(kp, kd, dt, last, before);
            var afresh := Run(kp, kd, dt, None, after);
            Run(kp, kd, dt, last, before + [Reset] + after) == Trace(prefix.actions + afresh.actions, afresh.last)
  {
    var tail := [Reset] + after;
    assert before + [Reset] + after == before + tail;
    RunAppend(kp, kd, dt, last, before, tail);
    assert tail[1..] == after;
  }

  /** Resetting twice in a row is the same as resetting once, for every
      history before and every sequence of calls after. */
  lemma {:induction false} ResetIdempotent(kp: real, kd: real, dt: real, last: Option<real>, before: seq<Step>, after: seq<Step>)
    requires dt != 0.0
    ensures Run(kp, kd, dt, last, before + [Reset, Reset] + after)
              == Run(kp, kd, dt, last, before + [Reset] + after)
  {
    assert before + [Reset, Reset] + after == before + [Reset] + ([Reset] + after);
    ResetForgetsHistory(kp, kd, dt, last, before, [Reset] + after);
    ResetForgetsHistory(kp, kd, dt, last, before, after);
    assert ([Reset] + after)[1..] == after;
  }

  /** Every call has a zero error. */
  ghost predicate ZeroErrors(steps: seq<Step>)
  {
    forall i :: 0 <= i < |steps| && steps[i].ControlCall? ==> steps[i].Error() == 0.0
  }

  /** Zero-error fixed point: if reference equals observation on every call
      (and any stored error is zero), every action is zero, whatever the
      gains and however many calls came before. */
  lemma {:induction false} ZeroErrorFixedPoint(kp: real, kd: real, dt: real, last: Option<real>, steps: seq<Step>)
    requires dt != 0.0
    requires last in {None, Some(0.0)}
    requires ZeroErrors(steps)
    ensures forall k :: 0 <= k < |Run(kp, kd, dt, last, steps).actions| ==> Run(kp, kd, dt, last, steps).actions[k] == 0.0
    decreases |steps|
  {
    if steps != [] {
      assert ZeroErrors(steps[1..]) by {
        forall i | 0 <= i < |steps[1..]| && steps[1..][i].ControlCall?
          ensures steps[1..][i].Error() == 0.0
        {
          assert steps[1..][i] == steps[i + 1];
        }
      }
      match steps[0]
      case Reset =>
        ZeroErrorFixedPoint(kp, kd, dt, None, steps[1..]);
      case ControlCall(r, o) =>
        assert steps[0].Error() == 0.0;
        ZeroErrorFixedPoint(kp, kd, dt, Some(0.0), steps[1..]);
    }
  }

  /** The controller object: fixed gains and sample interval, and the
      previous error that `Control` overwrites and `Reset` clears. */
  class PDController {
    var kp: real
    var kd: real
    var dt: real
    var lastError: Option<real>

    ghost predicate Valid()
      reads this
    {
      dt != 0.0
    }

    /** A controller with the given parameters (by default kp = 0.15,
        kd = 0.6, dt = 1) and no history. */
    constructor (kp: real := 0.15, kd: real := 0.6, dt: real := 1.0)
      requires dt != 0.0
      ensures Valid()
      ensures this.kp == kp && this.kd == kd && this.dt == dt
      ensures lastError == None
    {
      this.kp := kp;
      this.kd := kd;
      this.dt := dt;
      lastError := None;
    }

    /** One control step: returns the action for the error
        reference - observation and stores that error as the history. */
    method Control(reference: real, observation: real) returns (u: real)
      requires Valid()
      modifies this`lastError
      ensures Valid()
      ensures kp == old(kp) && kd == old(kd) && dt == old(dt)
      ensures Trace([u], lastError) == Run(kp, kd, dt, old(lastError), [ControlCall(reference, observation)])
      ensures old(lastError).None? ==> u == kp * (reference - observation)
      ensures old(lastError).Some? ==>
                u == kp * (reference - observation)
                     + kd * ((reference - observation) - old(lastError).value) / dt
      ensures lastError == Some(reference - observation)
    {
      var error := reference - observation;
      var derivative: real;
      if lastError.None? {
        derivative := 0.0;
      } else {
        derivative := (error - lastError.value) / dt;
      }
      u := kp * error + kd * derivative;
      assert derivative == Derivative(dt, lastError, error);
      assert u == Action(kp, kd, dt, lastError, error);
      SingleCall(kp, kd, dt, lastError, reference, observation);
      lastError := Some(error);
    }

    /** Clears the history, so that the next call behaves as a first call. */
    method Reset()
      requires Valid()
      modifies this`lastError
      ensures Valid()
      ensures kp == old(kp) && kd == old(kd) && dt == old(dt)
      ensures lastError == Run(kp, kd, dt, old(lastError), [Step.Reset]).last
      ensures lastError == None
    {
      lastError := None;
    }
  }

  /** The worked trace with the default parameters: control(10, 0) gives
      1.5, control(10, 2) then gives 0, and after a reset control(10, 2)
      gives 1.2. */
  method WorkedTrace() returns (first: real, second: real, afterReset: real)
    ensures first == 1.5 && second == 0.0 && afterReset == 1.2
  {
    var c := new PDController();
    assert c.kp == 0.15 && c.kd == 0.6 && c.dt == 1.0;
    first := c.Control(10.0, 0.0);
    second := c.Control(10.0, 2.0);
    c.Reset();
    afterReset := c.Control(10.0, 2.0);
  }
}
