/** The AND-gates of source/action.js. An Action resolves the first time an
    input activates while every other input is activated, and then cleans all
    of them up; inputs already activated when the Action is created count only
    from their next activation. An Emitter notifies its subscribers each time
    an input activates and every input is then activated.

    Both register one check listener, `Gate(gate)`, on every input. The
    events an input receives are delivered through the gate's `Input`
    method, which runs the input's round with the check modelled: inside the
    round the check cleans up the input (Action) or does nothing to it
    (Emitter); what it does to the other inputs and to the subscribers comes
    right after the round, which no listener of that round can observe. */
module Actions {
  import opened ConditionSpec
  import opened Conditions

  /** The argument of createAction / createEmitter: an array of conditions, or
      an options object whose `conditions` may be missing. */
  datatype GateOptions = ConditionList(list: seq<Condition>) | OptionsObject(conditions: Option<seq<Condition>>)

  /** The option handling at the head of both factories: an array is the
      condition list itself; an options object gives its `conditions`, or
      the empty list when that is missing. */
  function Normalize(opts: GateOptions): (cs: seq<Condition>)
    ensures opts.ConditionList? ==> cs == opts.list
    ensures opts.OptionsObject? && opts.conditions.Some? ==> cs == opts.conditions.value
    ensures opts.OptionsObject? && opts.conditions.None? ==> cs == []
  {
    match opts
    case ConditionList(list) => list
    case OptionsObject(conditions) => conditions.GetOr([])
  }

  ghost predicate Distinct(cs: seq<Condition>) {
    forall j, k :: 0 <= j < k < |cs| ==> cs[j] != cs[k]
  }

  ghost predicate AllValid(cs: seq<Condition>)
    reads cs
  {
    forall k :: 0 <= k < |cs| ==> cs[k].Valid()
  }

  /** Every input except input `i` is activated. */
  ghost predicate OthersActivated(cs: seq<Condition>, i: nat)
    reads cs
  {
    forall k :: 0 <= k < |cs| && k != i ==> cs[k].state
  }

  /** The check's test that every input is activated, evaluated by a check
      that runs in input `i`'s round: input `i` is then in the state the
      round's event set, `iState`. */
  method Every(cs: seq<Condition>, i: nat, iState: bool) returns (all: bool)
    ensures all == (OthersActivated(cs, i) && (i < |cs| ==> iState))
  {
    all := true;
    var k := 0;
    while k < |cs|
      invariant 0 <= k <= |cs|
      invariant all == ((forall j :: 0 <= j < k && j != i ==> cs[j].state) && (i < k ==> iState))
    {
      var activated := if k == i then iState else cs[k].IsActivated();
      all := all && activated;
      k := k + 1;
    }
  }

  /** What the gate's check listener does to the input whose round runs it:
      `cleanup` when it passes (Action), nothing otherwise. Every other
      listener does what `effect` says. */
  function CheckEffect(gate: object, cleans: bool, effect: Listener -> Effect): Listener -> Effect {
    l => if l == Gate(gate) then (if cleans then CleansUp else Returns) else effect(l)
  }

  /** Both factories register the check as an activation listener of every
      input, in order. */
  method RegisterOnEach(cs: seq<Condition>, check: Listener)
    requires Distinct(cs) && AllValid(cs)
    modifies cs
    ensures AllValid(cs)
    ensures forall k :: 0 <= k < |cs| ==> cs[k].Model() == old(cs[k].Model()).(activated := old(cs[k].activated) + [check])
  {
    var j := 0;
    while j < |cs|
      invariant 0 <= j <= |cs| && AllValid(cs)
      invariant forall k :: 0 <= k < j ==> cs[k].Model() == old(cs[k].Model()).(activated := old(cs[k].activated) + [check])
      invariant forall k :: j <= k < |cs| ==> cs[k].Model() == old(cs[k].Model())
    {
      var _ := cs[j].OnActivated(check);
      j := j + 1;
    }
  }

  /** `cleanup` on every input in order, leaving out input `skip` when there
      is one (the input the check already cleaned up in its own round). */
  method CleanupEach(cs: seq<Condition>, skip: Option<nat>)
    requires Distinct(cs) && AllValid(cs)
    modifies cs
    ensures AllValid(cs)
    ensures forall k :: 0 <= k < |cs| ==>
      cs[k].Model() == if skip == Some(k) then old(cs[k].Model()) else CleanedUp(old(cs[k].Model()), cs[k].kind)
  {
    var j := 0;
    while j < |cs|
      invariant 0 <= j <= |cs| && AllValid(cs)
      invariant forall k :: 0 <= k < j ==>
        cs[k].Model() == if skip == Some(k) then old(cs[k].Model()) else CleanedUp(old(cs[k].Model()), cs[k].kind)
      invariant forall k :: j <= k < |cs| ==> cs[k].Model() == old(cs[k].Model())
    {
      if skip != Some(j) {
        cs[j].Cleanup();
      }
      j := j + 1;
    }
  }

  /** The object createAction returns: a promise with `isValidated()`. */
  class Action {
    const conditions: seq<Condition>
    var validated: bool

    ghost predicate Valid()
      reads this, conditions
    {
      Distinct(conditions) && AllValid(conditions)
    }

    /** `isValidated()`: whether the promise has resolved. */
    function IsValidated(): (b: bool)
      reads this
      ensures b == validated
    {
      validated
    }

    constructor (cs: seq<Condition>)
      ensures conditions == cs && !validated
    {
      conditions := cs;
      validated := false;
    }

    /** Input `i` receives `ev`. If its round reaches the check and every input
        is then activated, the promise resolves, `validated` becomes true and
        every input is cleaned up. */
    method Input(i: nat, ev: Event, effect: Listener -> Effect) returns (fired: seq<Listener>)
      requires Valid() && i < |conditions| && Enabled(conditions[i].Model(), conditions[i].kind, ev)
      modifies this, conditions
      ensures Valid()
      ensures fired == Round(old(conditions[i].Model()), conditions[i].kind, ev)
      ensures var passes := old(OthersActivated(conditions, i)) && Target(conditions[i].kind, ev).GetOr(old(conditions[i].state));
        conditions[i].Model() == Step(old(conditions[i].Model()), conditions[i].kind, ev, CheckEffect(this, passes, effect)) &&
        validated == (old(validated) || (Gate(this) in fired && passes)) &&
        forall k :: 0 <= k < |conditions| && k != i ==>
          conditions[k].Model() == if Gate(this) in fired && passes then CleanedUp(old(conditions[k].Model()), conditions[k].kind)
                                   else old(conditions[k].Model())
      ensures validated && !old(validated) ==> forall k :: 0 <= k < |conditions| ==> conditions[k].IsActivated()
    {
      var input := conditions[i];
      var target := Target(input.kind, ev).GetOr(input.state);
      var passes := Every(conditions, i, target);
      fired := input.Deliver(ev, CheckEffect(this, passes, effect));
      if Gate(this) in fired && passes {
        validated := true;
        CleanupEach(conditions, Some(i));
      }
    }
  }

  /** createAction(opts): registers the check on every input; the check does
      not run at construction, so no Action starts validated. */
  method CreateAction(opts: GateOptions) returns (a: Action)
    requires Distinct(Normalize(opts)) && AllValid(Normalize(opts))
    modifies Normalize(opts)
    ensures fresh(a) && a.Valid() && a.conditions == Normalize(opts) && !a.IsValidated()
    ensures var cs := Normalize(opts); forall k :: 0 <= k < |cs| ==>
      cs[k].Model() == old(cs[k].Model()).(activated := old(cs[k].activated) + [Gate(a)])
  {
    a := new Action(Normalize(opts));
    RegisterOnEach(a.conditions, Gate(a));
  }

  /** The object createEmitter returns. */
  class Emitter {
    const conditions: seq<Condition>
    var onActive: seq<Listener>

    ghost predicate Valid()
      reads this, conditions
    {
      Distinct(conditions) && AllValid(conditions)
    }

    constructor (cs: seq<Condition>)
      ensures conditions == cs && onActive == []
    {
      conditions := cs;
      onActive := [];
    }

    /** `onActive(cb)` */
    method OnActive(cb: Listener)
      modifies this
      ensures onActive == old(onActive) + [cb]
    {
      onActive := onActive + [cb];
    }

    /** The detach closure `onActive(cb)` returns. */
    method DetachActive(cb: Listener)
      modifies this
      ensures onActive == RemoveFirst(old(onActive), cb)
    {
      onActive := SpliceOut(onActive, cb);
    }

    /** `cleanup()`: cleans up every input; the subscribers stay. */
    method Cleanup()
      requires Valid()
      modifies conditions
      ensures Valid()
      ensures forall k :: 0 <= k < |conditions| ==> conditions[k].Model() == CleanedUp(old(conditions[k].Model()), conditions[k].kind)
    {
      CleanupEach(conditions, None);
    }

    /** Input `i` receives `ev`. If its round reaches the check and every input
        is then activated, every subscriber is called (`events`, in order). */
    method Input(i: nat, ev: Event, effect: Listener -> Effect) returns (fired: seq<Listener>, events: seq<Listener>)
      requires Valid() && i < |conditions| && Enabled(conditions[i].Model(), conditions[i].kind, ev)
      modifies conditions
      ensures Valid()
      ensures fired == Round(old(conditions[i].Model()), conditions[i].kind, ev)
      ensures conditions[i].Model() == Step(old(conditions[i].Model()), conditions[i].kind, ev, CheckEffect(this, false, effect))
      ensures forall k :: 0 <= k < |conditions| && k != i ==> conditions[k].Model() == old(conditions[k].Model())
      ensures events == if Gate(this) in fired && old(OthersActivated(conditions, i)) && Target(conditions[i].kind, ev).GetOr(old(conditions[i].state))
                        then onActive else []
      ensures events != [] ==> fired != [] && forall k :: 0 <= k < |conditions| ==> conditions[k].IsActivated()
    {
      var input := conditions[i];
      var target := Target(input.kind, ev).GetOr(input.state);
      var passes := Every(conditions, i, target);
      fired := input.Deliver(ev, CheckEffect(this, false, effect));
      events := [];
      if Gate(this) in fired && passes {
        events := onActive;
      }
    }
  }

  /** createEmitter(opts) */
  method CreateEmitter(opts: GateOptions) returns (e: Emitter)
    requires Distinct(Normalize(opts)) && AllValid(Normalize(opts))
    modifies Normalize(opts)
    ensures fresh(e) && e.Valid() && e.conditions == Normalize(opts) && e.onActive == []
    ensures var cs := Normalize(opts); forall k :: 0 <= k < |cs| ==>
      cs[k].Model() == old(cs[k].Model()).(activated := old(cs[k].activated) + [Gate(e)])
  {
    e := new Emitter(Normalize(opts));
    RegisterOnEach(e.conditions, Gate(e));
  }
}
