/** The condition objects of source/condition.js: createCondition, the
    polling createReaction and the constructors built on them. Every method is
    proved against one `Step` of the reference semantics in ConditionSpec. */
module Conditions {
  import opened ConditionSpec

  datatype Result<T, E> = Ok(value: T) | Err(error: E)

  /** The first index holding `x`, or -1 when there is none (indexOf). */
  method IndexOf<T(==)>(s: seq<T>, x: T) returns (i: int)
    ensures -1 <= i < |s|
    ensures 0 <= i ==> s[i] == x && x !in s[..i]
    ensures i < 0 <==> x !in s
  {
    i := 0;
    while i < |s|
      invariant 0 <= i <= |s|
      invariant x !in s[..i]
    {
      if s[i] == x {
        return;
      }
      assert s[..i + 1] == s[..i] + [s[i]];
      i := i + 1;
    }
    assert s[..i] == s;
    i := -1;
  }

  /** What a detach closure does to its list: look the callback up and, when
      it is found, splice out that one element. */
  method SpliceOut<T(==)>(s: seq<T>, x: T) returns (r: seq<T>)
    ensures r == RemoveFirst(s, x)
  {
    var i := IndexOf(s, x);
    r := s;
    if i >= 0 {
      RemoveFirstAt(s, x, i);
      r := s[..i] + s[i + 1..];
    } else {
      RemoveFirstAbsent(s, x);
    }
  }

  class Condition {
    /** Which constructor built this object; a reaction's `cleanup` is the
        override createReaction installs. */
    const kind: Kind
    var state: bool
    var activated: seq<Listener>
    var deactivated: seq<Listener>
    var running: bool
    var timerArmed: bool
    var timerDelay: nat
    var inFlight: bool

    ghost function Model(): Snapshot
      reads this
    {
      Snapshot(state, activated, deactivated, running, timerArmed, timerDelay, inFlight)
    }

    ghost predicate Valid()
      reads this
    {
      Inv(Model(), kind)
    }

    /** `isActivated()`: the state of the modelled object. */
    function IsActivated(): (b: bool)
      reads this
      ensures b == Model().state
    {
      state
    }

    /** createCondition(), and the object createReaction / whenFinished start
        from: not activated, no listeners; a reaction has its first check
        scheduled at delay 0. */
    constructor (kind: Kind)
      ensures this.kind == kind && Model() == Initial(kind) && Valid()
      ensures !IsActivated()
    {
      this.kind := kind;
      state := false;
      activated := [];
      deactivated := [];
      running := kind.Reaction?;
      timerArmed := kind.Reaction?;
      timerDelay := 0;
      inFlight := kind.Finished?;
    }

    /** `cleanup()`; on a reaction, the override: clear the timer, stop
        running, then empty both lists. */
    method Cleanup()
      requires Valid()
      modifies this
      ensures Valid()
      ensures Model() == CleanedUp(old(Model()), kind)
    {
      if kind.Reaction? {
        timerArmed := false;
        running := false;
      }
      activated := [];
      deactivated := [];
    }

    /** `onActivated(cb)`: appends, and returns the detach closure. */
    method OnActivated(l: Listener) returns (h: DetachHandle)
      requires Valid()
      modifies this
      ensures Valid() && h == FromActivated(l)
      ensures Model() == old(Model()).(activated := old(activated) + [l])
    {
      activated := activated + [l];
      h := FromActivated(l);
    }

    /** `onDeactivated(cb)` */
    method OnDeactivated(l: Listener) returns (h: DetachHandle)
      requires Valid()
      modifies this
      ensures Valid() && h == FromDeactivated(l)
      ensures Model() == old(Model()).(deactivated := old(deactivated) + [l])
    {
      deactivated := deactivated + [l];
      h := FromDeactivated(l);
    }

    /** Calling a detach closure: remove the first occurrence of its callback
        from the list it was added to, if it is still there. */
    method Detach(h: DetachHandle)
      requires Valid()
      modifies this
      ensures Valid()
      ensures h.FromActivated? ==> Model() == old(Model()).(activated := RemoveFirst(old(activated), h.listener))
      ensures h.FromDeactivated? ==> Model() == old(Model()).(deactivated := RemoveFirst(old(deactivated), h.listener))
    {
      match h {
        case FromActivated(l) => activated := SpliceOut(activated, l);
        case FromDeactivated(l) => deactivated := SpliceOut(deactivated, l);
      }
    }

    /** One listener call, with any exception it throws caught and dropped:
        what the listener does to this condition, through its public methods. */
    method Invoke(l: Listener, effect: Listener -> Effect)
      requires Valid()
      modifies this
      ensures Valid()
      ensures Model() == ApplyEffect(old(Model()), kind, Behaviour(effect, l))
    {
      match Behaviour(effect, l) {
        case Returns =>
        case Throws =>
        case AttachActivated(cb) => var _ := OnActivated(Callback(cb));
        case AttachDeactivated(cb) => var _ := OnDeactivated(Callback(cb));
        case DetachActivated(cb) => Detach(FromActivated(Callback(cb)));
        case DetachDeactivated(cb) => Detach(FromDeactivated(Callback(cb)));
        case CleansUp => Cleanup();
      }
    }

    /** The dispatch loop: every listener of a round, which is a copy of a
        listener list, called in order, each inside its own try/catch. */
    method Dispatch(round: seq<Listener>, effect: Listener -> Effect)
      requires Valid()
      modifies this
      ensures Valid()
      ensures Model() == Dispatched(old(Model()), kind, round, effect)
    {
      var i := 0;
      while i < |round|
        invariant 0 <= i <= |round| && Valid()
        invariant Dispatched(Model(), kind, round[i..], effect) == Dispatched(old(Model()), kind, round, effect)
      {
        assert round[i..][1..] == round[i + 1..];
        Invoke(round[i], effect);
        i := i + 1;
      }
    }

    /** `activate()` */
    method Activate(effect: Listener -> Effect) returns (fired: seq<Listener>)
      requires Valid()
      modifies this
      ensures Valid()
      ensures fired == Round(old(Model()), kind, Event.Activate)
      ensures Model() == Step(old(Model()), kind, Event.Activate, effect)
    {
      var changed := !state;
      state := true;
      fired := [];
      if changed {
        fired := activated;
        Dispatch(fired, effect);
      }
    }

    /** `deactivate()` */
    method Deactivate(effect: Listener -> Effect) returns (fired: seq<Listener>)
      requires Valid()
      modifies this
      ensures Valid()
      ensures fired == Round(old(Model()), kind, Event.Deactivate)
      ensures Model() == Step(old(Model()), kind, Event.Deactivate, effect)
    {
      var changed := state;
      state := false;
      fired := [];
      if changed {
        fired := deactivated;
        Dispatch(fired, effect);
      }
    }

    /** A reaction's `resetTimer`. */
    method ResetTimer()
      requires Valid() && kind.Reaction? && !inFlight
      modifies this
      ensures Valid()
      ensures Model() == Rearmed(old(Model()), kind)
    {
      timerArmed := false;
      if running {
        timerArmed := true;
        timerDelay := kind.delay;
      }
    }

    /** The reaction's timer fires and runs `performCheck`; `outcome` is what
        the poll callback did. */
    method Tick(outcome: PollResult, effect: Listener -> Effect) returns (fired: seq<Listener>)
      requires Valid() && kind.Reaction? && timerArmed
      modifies this
      ensures Valid()
      ensures fired == Round(old(Model()), kind, Event.Tick(outcome))
      ensures Model() == Step(old(Model()), kind, Event.Tick(outcome), effect)
    {
      timerArmed := false;
      ghost var before := Model();
      match outcome {
        case Threw =>
          fired := Deactivate(effect);
          DispatchedKeepsState(before.(state := false), kind, RoundOf(before, false), effect);
          ResetTimer();
        case Returned(v) =>
          if kind.validate(v) {
            fired := Activate(effect);
          } else {
            fired := Deactivate(effect);
          }
          DispatchedKeepsState(before.(state := kind.validate(v)), kind, RoundOf(before, kind.validate(v)), effect);
          ResetTimer();
        case ReturnedPromise =>
          inFlight := true;
          fired := [];
      }
    }

    /** The promise a poll returned settles (its `.then` / `.catch`). */
    method Settle(st: Settlement, effect: Listener -> Effect) returns (fired: seq<Listener>)
      requires Valid() && kind.Reaction? && inFlight
      modifies this
      ensures Valid()
      ensures fired == Round(old(Model()), kind, Event.Settle(st))
      ensures Model() == Step(old(Model()), kind, Event.Settle(st), effect)
    {
      inFlight := false;
      ghost var before := Model();
      var target := st.Fulfilled? && kind.validate(st.value);
      if target {
        fired := Activate(effect);
      } else {
        fired := Deactivate(effect);
      }
      DispatchedKeepsState(before.(state := target), kind, RoundOf(before, target), effect);
      ResetTimer();
    }

    /** whenFinished's promise settles. */
    method Finish(r: Settlement, effect: Listener -> Effect) returns (fired: seq<Listener>)
      requires Valid() && kind.Finished? && inFlight
      modifies this
      ensures Valid()
      ensures fired == Round(old(Model()), kind, Event.Finish(r))
      ensures Model() == Step(old(Model()), kind, Event.Finish(r), effect)
    {
      inFlight := false;
      match r {
        case Fulfilled(_) =>
          fired := Activate(effect);
        case Rejected =>
          if kind.mustResolve {
            fired := Deactivate(effect);
          } else {
            fired := Activate(effect);
          }
      }
    }

    /** Any event, by the method that carries it out. */
    method Deliver(ev: Event, effect: Listener -> Effect) returns (fired: seq<Listener>)
      requires Valid() && Enabled(Model(), kind, ev)
      modifies this
      ensures Valid()
      ensures fired == Round(old(Model()), kind, ev)
      ensures Model() == Step(old(Model()), kind, ev, effect)
    {
      fired := [];
      match ev {
        case Activate => fired := Activate(effect);
        case Deactivate => fired := Deactivate(effect);
        case Cleanup => Cleanup();
        case OnActivated(l) => var _ := OnActivated(l);
        case OnDeactivated(l) => var _ := OnDeactivated(l);
        case Detach(h) => Detach(h);
        case Tick(outcome) => fired := Tick(outcome, effect);
        case Settle(st) => fired := Settle(st, effect);
        case Finish(r) => fired := Finish(r, effect);
      }
    }
  }

  /** createReaction(cb, opts) */
  method CreateReaction(opts: ReactionOptions) returns (c: Condition)
    ensures fresh(c) && c.Valid()
    ensures c.kind == ReactionKind(opts) && c.Model() == Initial(c.kind)
  {
    c := new Condition(ReactionKind(opts));
  }

  /** whileTruthy(cb, opts): a reaction validating with `!!val`. */
  method WhileTruthy(opts: ReactionOptions) returns (c: Condition)
    ensures fresh(c) && c.Valid()
    ensures c.kind == ReactionKind(WhileTruthyOptions(opts)) && c.Model() == Initial(c.kind)
  {
    c := CreateReaction(WhileTruthyOptions(opts));
  }

  /** whileFalsy(cb, opts): a reaction validating with `!val`. */
  method WhileFalsy(opts: ReactionOptions) returns (c: Condition)
    ensures fresh(c) && c.Valid()
    ensures c.kind == ReactionKind(WhileFalsyOptions(opts)) && c.Model() == Initial(c.kind)
  {
    c := CreateReaction(WhileFalsyOptions(opts));
  }

  /** whenTruthy(cb, opts): whileTruthy with a first activation listener that
      cleans the condition up. */
  method WhenTruthy(opts: ReactionOptions) returns (c: Condition)
    ensures fresh(c) && c.Valid()
    ensures c.kind == ReactionKind(WhileTruthyOptions(opts))
    ensures c.Model() == Initial(c.kind).(activated := [SelfCleanup])
  {
    c := WhileTruthy(opts);
    var _ := c.OnActivated(SelfCleanup);
  }

  /** whenFalsy(cb, opts) */
  method WhenFalsy(opts: ReactionOptions) returns (c: Condition)
    ensures fresh(c) && c.Valid()
    ensures c.kind == ReactionKind(WhileFalsyOptions(opts))
    ensures c.Model() == Initial(c.kind).(activated := [SelfCleanup])
  {
    c := WhileFalsy(opts);
    var _ := c.OnActivated(SelfCleanup);
  }

  /** What whenFinished is given: a promise, a callback and what calling it
      did, or some other value. */
  datatype FinishedInput = PromiseArg | CallbackArg(call: CallOutcome) | OtherArg(v: JsValue)
  datatype CallOutcome = GivesPromise | GivesValue(v: JsValue) | GivesThrow

  /** The exception whenFinished lets escape: its own "Resulting value is not
      a promise" error, the callback's exception, or the TypeError of calling
      something that is not a function. */
  datatype FinishedError = NotAPromise | CallbackThrew | NotCallable

  /** whenFinished: a plain condition waiting for the promise, or the
      exception thrown at construction. A missing `mustResolve` is false. */
  method WhenFinished(input: FinishedInput, mustResolve: Option<bool>) returns (r: Result<Condition, FinishedError>)
    ensures r.Ok? <==> input.PromiseArg? || input == CallbackArg(GivesPromise)
    ensures r.Ok? ==> fresh(r.value) && r.value.Valid() && r.value.kind == Finished(mustResolve.GetOr(false))
    ensures r.Ok? && mustResolve.None? ==> r.value.kind == Finished(false)
    ensures r.Ok? ==> r.value.Model() == Initial(r.value.kind)
    ensures input.CallbackArg? && input.call.GivesValue? ==> r == Err(NotAPromise)
    ensures input == CallbackArg(GivesThrow) ==> r == Err(CallbackThrew)
    ensures input.OtherArg? ==> r == Err(NotCallable)
  {
    var c := new Condition(Finished(mustResolve.GetOr(false)));
    match input {
      case PromiseArg => r := Ok(c);
      case OtherArg(_) => r := Err(NotCallable);
      case CallbackArg(GivesThrow) => r := Err(CallbackThrew);
      case CallbackArg(GivesValue(_)) => r := Err(NotAPromise);
      case CallbackArg(GivesPromise) => r := Ok(c);
    }
  }
}
