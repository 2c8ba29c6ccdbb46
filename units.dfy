/**
 * The state-change consumer of the generic unit facade
 * (`Unit#createStateConsumer`): a `PropertiesChanged` change-set reaches the
 * registered listeners only when it carries one of the three lifecycle keys,
 * and then every listener receives this unit and the unmodified change-set.
 *
 * Each `stateChanged` callback is recorded as one entry of the unit's
 * notification log, in the order the listener collection is walked. Whether
 * the callback made at a position of that walk throws is given by the
 * parameter `throws`; an exception ends the fan-out after the call that
 * raised it.
 *
 * The class also carries the instance members that read the facade's name:
 * `isAssignableFrom` and the lifecycle verbs.
 */
module Units {
  import opened Wrappers
  import opened UnitNames
  import opened StateTuples
  import opened Lifecycle

  /** Identity of a registered `UnitStateListener`. */
  type ListenerId = nat

  /** One `stateChanged(unit, properties)` call. */
  datatype Notification = Notification(listener: ListenerId, unit: Unit, changes: ChangeSet)

  /**
   * The filter of the state consumer: one of the lifecycle keys is present.
   * A change-set it rejects resolves, on its own, to the all-"-" tuple.
   */
  predicate IsLifecycleChange(changes: ChangeSet): (b: bool)
    ensures !b ==> OfChanges(changes) == StateTuple(Missing, Missing, Missing)
    ensures b ==> changes != map[]
  {
    ActiveStateKey in changes || LoadStateKey in changes || SubStateKey in changes
  }

  /** One call per listener, in order, each with the same unit and change-set. */
  function Fanout(listeners: seq<ListenerId>, unit: Unit, changes: ChangeSet): (r: seq<Notification>)
    ensures |r| == |listeners|
    ensures forall i :: 0 <= i < |r| ==> r[i] == Notification(listeners[i], unit, changes)
  {
    if listeners == [] then []
    else [Notification(listeners[0], unit, changes)] + Fanout(listeners[1..], unit, changes)
  }

  /**
   * Position of the first of `count` callbacks that throws, or `count` if
   * none does; `throws(j)` says whether the callback at position j throws.
   */
  function FirstThrower(count: nat, throws: nat -> bool): (k: nat)
    ensures k <= count
    ensures forall j :: 0 <= j < k ==> !throws(j)
    ensures k < count ==> throws(k)
  {
    if count == 0 then 0
    else
      var k := FirstThrower(count - 1, throws);
      if k < count - 1 then k
      else if throws(count - 1) then count - 1
      else count
  }

  /** The listeners a fan-out reaches: every one up to and including the first call that throws. */
  function Reached(listeners: seq<ListenerId>, throws: nat -> bool): (r: seq<ListenerId>)
    ensures |r| <= |listeners| && r == listeners[..|r|]
    ensures forall j :: 0 <= j < |r| - 1 ==> !throws(j)
    ensures |r| < |listeners| ==> |r| > 0 && throws(|r| - 1)
  {
    var k := FirstThrower(|listeners|, throws);
    if k < |listeners| then listeners[..k + 1] else listeners
  }

  /** A fan-out reaches every listener exactly when no call before the last throws. */
  lemma ReachedAllIff(listeners: seq<ListenerId>, throws: nat -> bool)
    ensures Reached(listeners, throws) == listeners <==>
            forall j :: 0 <= j < |listeners| - 1 ==> !throws(j)
  {
    var k := FirstThrower(|listeners|, throws);
    if k < |listeners| - 1 {
      assert |Reached(listeners, throws)| == k + 1 < |listeners|;
    }
  }

  /** The listeners a sequence of notifications went to. */
  function Recipients(log: seq<Notification>): (r: seq<ListenerId>)
    ensures |r| == |log|
    ensures forall i :: 0 <= i < |log| ==> r[i] == log[i].listener
  {
    if log == [] then [] else [log[0].listener] + Recipients(log[1..])
  }

  /**
   * A fan-out goes to every listener as often as it is registered and to no
   * one else.
   */
  lemma FanoutReachesEachListener(listeners: seq<ListenerId>, unit: Unit, changes: ChangeSet)
    ensures Recipients(Fanout(listeners, unit, changes)) == listeners
    ensures multiset(Recipients(Fanout(listeners, unit, changes))) == multiset(listeners)
  {
  }

  /**
   * The filter is exact: a change-set is forwarded precisely when it could
   * move some unit's state tuple away from the unit's live values.
   */
  lemma FilterIsExact(changes: ChangeSet)
    ensures IsLifecycleChange(changes) <==>
            exists load, active, sub :: OfUnitAndChanges(load, active, sub, changes) != OfUnit(load, active, sub)
  {
    if IsLifecycleChange(changes) {
      var load := if LoadStateKey in changes then changes[LoadStateKey] + "x" else "";
      var active := if ActiveStateKey in changes then changes[ActiveStateKey] + "x" else "";
      var sub := if SubStateKey in changes then changes[SubStateKey] + "x" else "";
      if LoadStateKey in changes {
        assert |OfUnitAndChanges(load, active, sub, changes).loadState| < |load|;
      } else if ActiveStateKey in changes {
        assert |OfUnitAndChanges(load, active, sub, changes).activeState| < |active|;
      } else {
        assert |OfUnitAndChanges(load, active, sub, changes).subState| < |sub|;
      }
    }
  }

  /** A unit facade as far as its state consumer is concerned. */
  class Unit {
    /** The normalised unit name the facade was created with. */
    const name: string
    /** The registered state listeners, in the order the collection is walked. */
    const listeners: seq<ListenerId>
    /** Every `stateChanged` call made so far, oldest first. */
    var notifications: seq<Notification>

    constructor (name: string, listeners: seq<ListenerId>)
      ensures this.name == name && this.listeners == listeners && notifications == []
    {
      this.name := name;
      this.listeners := listeners;
      notifications := [];
    }

    /**
     * The consumer's handler for one `PropertiesChanged` signal: when a
     * lifecycle key is present, call every listener in turn until a call
     * throws, and report whether one did; else do nothing.
     */
    method OnPropertiesChanged(changes: ChangeSet, throws: nat -> bool) returns (thrown: bool)
      modifies this`notifications
      ensures thrown <==> IsLifecycleChange(changes) && FirstThrower(|listeners|, throws) < |listeners|
      ensures IsLifecycleChange(changes) ==>
                notifications == old(notifications) + Fanout(Reached(listeners, throws), this, changes)
      ensures !IsLifecycleChange(changes) ==> notifications == old(notifications)
    {
      thrown := false;
      if IsLifecycleChange(changes) {
        ghost var k := FirstThrower(|listeners|, throws);
        var i := 0;
        while i < |listeners| && !thrown
          invariant 0 <= i <= |listeners|
          invariant thrown ==> i == k + 1
          invariant !thrown ==> i <= k
          invariant notifications == old(notifications) + Fanout(listeners[..i], this, changes)
        {
          notifications := notifications + [Notification(listeners[i], this, changes)];
          thrown := throws(i);
          i := i + 1;
        }
        assert !thrown ==> listeners[..i] == listeners;
      }
    }

    /** `isAssignableFrom`: the path names this unit's escaped name, with the empty-name edge case. */
    function IsAssignableFrom(escape: string -> string, objectPath: Option<string>): (b: bool)
      ensures b <==> (objectPath == Some(UnitObjectPath + escape(name)) ||
                      (escape(name) == "" && !IsUnitObjectPath(objectPath)))
    {
      MatchesName(name, escape, objectPath)
    }

    /** `start(String)` … `reloadOrTryRestart(String)`: this unit's name with the given mode string. */
    function JobRequest(verb: JobVerb, mode: string): ManagerCall {
      JobCall(verb, name, mode)
    }

    /** `start(Mode)` … `reloadOrTryRestart(Mode)`: the mode is sent as its string value. */
    function Job(verb: JobVerb, mode: Mode): (c: ManagerCall)
      ensures c.JobCall? && c == JobRequest(verb, c.mode)
      ensures ModeOf(c.mode) == Some(mode)
    {
      JobRequest(verb, mode.Value())
    }

    /** `kill(Who, int)`: this unit's name, the target's string value and the signal number. */
    function Kill(who: Who, signal: Int32): (c: ManagerCall)
      ensures c.KillUnit? && c.unitName == name && c.signal == signal
      ensures WhoOf(c.who) == Some(who)
    {
      KillUnit(name, who.Value(), signal)
    }

    /** `resetFailed()`: a request naming this unit. */
    function ResetFailed(): ManagerCall {
      ResetFailedUnit(name)
    }

    /** `unref()`: a request naming this unit. */
    function Unref(): ManagerCall {
      UnrefUnit(name)
    }
  }
}
