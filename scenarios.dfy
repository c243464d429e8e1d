/** The behaviours the repository's test suites describe, as straight-line
    programs over the model. Time is a number of timer expirations (`ticks`):
    a reaction's check runs once per tick, whatever its delay. */
module Scenarios {
  import opened ConditionSpec
  import opened Conditions
  import opened Actions

  /** A listener that does nothing but return (a sinon spy). */
  function Quiet(l: Listener): Effect {
    Returns
  }

  /** A plain condition starts inactive and reports each edge once: a second
      activate or deactivate in a row calls no listener. */
  method FiresOncePerEdge() returns (initially: bool, up: seq<Listener>, upAgain: seq<Listener>, down: seq<Listener>, downAgain: seq<Listener>, finally: bool)
    ensures !initially && !finally
    ensures up == [Callback(0)] && upAgain == []
    ensures down == [Callback(1)] && downAgain == []
  {
    var c := new Condition(Plain);
    initially := c.IsActivated();
    var _ := c.OnActivated(Callback(0));
    var _ := c.OnDeactivated(Callback(1));
    InertSetState(c.Model(), Plain, true, Quiet);
    up := c.Activate(Quiet);
    upAgain := c.Activate(Quiet);
    InertSetState(c.Model(), Plain, false, Quiet);
    down := c.Deactivate(Quiet);
    downAgain := c.Deactivate(Quiet);
    finally := c.IsActivated();
  }

  /** Detaching a listener during a round does not stop it from being called
      in that round (the round runs over a copy), and a listener that throws
      does not stop the round. */
  method RoundRunsOverACopy() returns (fired: seq<Listener>, after: seq<Listener>, active: bool)
    ensures fired == [Callback(0), Callback(1)]
    ensures after == [Callback(0)]
    ensures active
  {
    var c := new Condition(Plain);
    var _ := c.OnActivated(Callback(0));
    var _ := c.OnActivated(Callback(1));
    var effect := (l: Listener) => if l == Callback(0) then DetachActivated(1) else Throws;
    ghost var s := c.Model();
    assert s.activated == [Callback(0), Callback(1)] && !s.state;
    ghost var s1 := s.(state := true, activated := [Callback(0)]);
    assert RemoveFirst(s.activated, Callback(1)) == [Callback(0)] by {
      assert s.activated[1..] == [Callback(1)];
    }
    assert Dispatched(s.(state := true), Plain, s.activated, effect) == s1 by {
      assert Behaviour(effect, Callback(0)) == DetachActivated(1);
      assert ApplyEffect(s.(state := true), Plain, DetachActivated(1)) == s1;
      assert Behaviour(effect, Callback(1)) == Throws;
      assert Dispatched(s1, Plain, [Callback(1)], effect) == s1 by {
        assert [Callback(1)][1..] == [];
      }
      assert s.activated[1..] == [Callback(1)];
    }
    fired := c.Activate(effect);
    after := c.activated;
    active := c.IsActivated();
  }

  /** `createReaction(() => true, { delay: 50 })` with a spy on activation:
      after any number of checks the spy was called exactly once and the
      condition is activated; cleanup then stops the polling. */
  method ReactsToTruthyCallback(ticks: nat) returns (calls: nat, active: bool, stopped: bool)
    requires ticks > 0
    ensures calls == 1 && active && stopped
  {
    var c := CreateReaction(ReactionOptions(Some(50), None));
    var _ := c.OnActivated(Callback(0));
    calls := 0;
    var t := 0;
    while t < ticks
      invariant 0 <= t <= ticks && c.Valid()
      invariant c.kind == ReactionKind(ReactionOptions(Some(50), None))
      invariant c.activated == [Callback(0)] && c.deactivated == []
      invariant c.running && c.timerArmed && !c.inFlight
      invariant c.state == (t > 0) && calls == (if t > 0 then 1 else 0)
    {
      InertSetState(c.Model().(timerArmed := false), c.kind, c.kind.validate(Boolean(true)), Quiet);
      var fired := c.Tick(Returned(Boolean(true)), Quiet);
      calls := calls + |fired|;
      t := t + 1;
    }
    active := c.IsActivated();
    c.Cleanup();
    stopped := !c.running && !c.timerArmed;
  }

  /** `createReaction(() => false, { delay: 50 })` with a spy on deactivation:
      the condition never activates, and since it was never active the spy is
      never called. */
  method ReactsToFalsyCallback(ticks: nat) returns (calls: nat, active: bool)
    ensures calls == 0 && !active
  {
    var c := CreateReaction(ReactionOptions(Some(50), None));
    var _ := c.OnDeactivated(Callback(0));
    calls := 0;
    var t := 0;
    while t < ticks
      invariant 0 <= t <= ticks && c.Valid()
      invariant c.kind == ReactionKind(ReactionOptions(Some(50), None))
      invariant c.activated == [] && c.deactivated == [Callback(0)]
      invariant c.running && c.timerArmed && !c.inFlight
      invariant !c.state && calls == 0
    {
      InertSetState(c.Model().(timerArmed := false), c.kind, c.kind.validate(Boolean(false)), Quiet);
      var fired := c.Tick(Returned(Boolean(false)), Quiet);
      calls := calls + |fired|;
      t := t + 1;
    }
    active := c.IsActivated();
  }

  /** whenTruthy: the first truthy result activates the condition, and its own
      listener then cleans it up, so no further check is scheduled. */
  method WhenTruthyStopsAtFirstActivation(falseTicks: nat) returns (waiting: bool, active: bool, stopped: bool)
    ensures waiting && active && stopped
  {
    var c := WhenTruthy(ReactionOptions(None, None));
    var t := 0;
    while t < falseTicks
      invariant 0 <= t <= falseTicks && c.Valid()
      invariant c.kind == ReactionKind(WhileTruthyOptions(ReactionOptions(None, None)))
      invariant c.activated == [SelfCleanup] && c.deactivated == []
      invariant c.running && c.timerArmed && !c.inFlight && !c.state
    {
      InertSetState(c.Model().(timerArmed := false), c.kind, c.kind.validate(Number(0.0)), Quiet);
      var _ := c.Tick(Returned(Number(0.0)), Quiet);
      t := t + 1;
    }
    waiting := c.running;
    ghost var armed := c.Model().(timerArmed := false, state := true);
    assert Dispatched(armed, c.kind, [SelfCleanup], Quiet) == CleanedUp(armed, c.kind) by {
      assert [SelfCleanup][1..] == [];
    }
    var _ := c.Tick(Returned(Str("ready")), Quiet);
    active := c.IsActivated();
    stopped := !c.running && !c.timerArmed && c.activated == [];
  }

  /** `ticks` polls of a reaction that sees false: the action over it stays
      unvalidated and the reaction keeps polling. */
  method PollFalse(a: Action, r: Condition, ticks: nat)
    requires a.Valid() && a.conditions == [r] && !a.validated
    requires r.kind == ReactionKind(ReactionOptions(None, None))
    requires r.activated == [Gate(a)] && r.deactivated == []
    requires r.running && r.timerArmed && !r.inFlight && !r.state
    modifies a, r
    ensures a.Valid() && !a.validated
    ensures r.activated == [Gate(a)] && r.deactivated == []
    ensures r.running && r.timerArmed && !r.inFlight && !r.state
  {
    var t := 0;
    while t < ticks
      invariant 0 <= t <= ticks && a.Valid() && a.conditions == [r] && !a.validated
      invariant r.activated == [Gate(a)] && r.deactivated == []
      invariant r.running && r.timerArmed && !r.inFlight && !r.state
    {
      InertSetState(r.Model().(timerArmed := false), r.kind, false, CheckEffect(a, false, Quiet));
      var _ := a.Input(0, Tick(Returned(Boolean(false))), Quiet);
      t := t + 1;
    }
  }

  /** An action over `createReaction(() => value)` is not validated while the
      value is false, and is validated by the first check that sees it true,
      which also stops the reaction. */
  method ActionWaitsForAllConditions(falseTicks: nat) returns (early: bool, late: bool, stopped: bool)
    ensures !early && late && stopped
  {
    var r := CreateReaction(ReactionOptions(None, None));
    assert Normalize(ConditionList([r])) == [r] && r.activated == [];
    var a := CreateAction(ConditionList([r]));
    assert a.conditions[0] == r;
    assert r.activated == [Gate(a)];
    PollFalse(a, r, falseTicks);
    early := a.IsValidated();
    ghost var armed := r.Model().(timerArmed := false, state := true);
    assert Behaviour(CheckEffect(a, true, Quiet), Gate(a)) == CleansUp;
    assert Dispatched(armed, r.kind, [Gate(a)], CheckEffect(a, true, Quiet)) == CleanedUp(armed, r.kind) by {
      assert [Gate(a)][1..] == [];
    }
    var _ := a.Input(0, Tick(Returned(Boolean(true))), Quiet);
    late := a.IsValidated();
    stopped := !r.running && !r.timerArmed;
  }

  /** An input that is already activated when the action is created does not
      validate it: its check runs only on an activation edge. Only after the
      input deactivates and activates again is the action validated. */
  method ActionIgnoresEarlierActivation() returns (onCreate: bool, reactivated: bool)
    ensures !onCreate && reactivated
  {
    var c := new Condition(Plain);
    var _ := c.Activate(Quiet);
    assert Normalize(ConditionList([c])) == [c] && c.activated == [] && c.state;
    var a := CreateAction(ConditionList([c]));
    assert a.conditions[0] == c;
    assert c.activated == [Gate(a)] && c.deactivated == [];
    var _ := a.Input(0, Activate, Quiet);
    onCreate := a.IsValidated();
    var _ := a.Input(0, Deactivate, Quiet);
    assert Behaviour(CheckEffect(a, true, Quiet), Gate(a)) == CleansUp;
    var _ := a.Input(0, Activate, Quiet);
    reactivated := a.IsValidated();
  }

  /** An emitter over `createReaction(() => true)` calls its subscriber once,
      however many checks follow, and its cleanup stops the reaction. */
  method EmitterEmitsOnce(ticks: nat) returns (calls: nat, stopped: bool)
    requires ticks > 0
    ensures calls == 1 && stopped
  {
    var r := CreateReaction(ReactionOptions(None, None));
    assert Normalize(ConditionList([r])) == [r] && r.activated == [];
    var e := CreateEmitter(ConditionList([r]));
    assert e.conditions[0] == r;
    assert r.activated == [Gate(e)];
    e.OnActive(Callback(0));
    calls := 0;
    var t := 0;
    while t < ticks
      invariant 0 <= t <= ticks && e.Valid() && e.conditions == [r] && e.onActive == [Callback(0)]
      invariant r.kind == ReactionKind(ReactionOptions(None, None))
      invariant r.activated == [Gate(e)] && r.deactivated == []
      invariant r.running && r.timerArmed && !r.inFlight
      invariant r.state == (t > 0) && calls == (if t > 0 then 1 else 0)
    {
      assert Behaviour(CheckEffect(e, false, Quiet), Gate(e)) == Returns;
      InertSetState(r.Model().(timerArmed := false), r.kind, true, CheckEffect(e, false, Quiet));
      var _, events := e.Input(0, Tick(Returned(Boolean(true))), Quiet);
      calls := calls + |events|;
      t := t + 1;
    }
    e.Cleanup();
    stopped := !r.running && !r.timerArmed;
  }
}
