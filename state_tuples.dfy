/**
 * `Unit.StateTuple`: the immutable (load, active, sub) lifecycle triple and
 * its three factories.
 *
 * A change-set is the `changedProperties` map of one `PropertiesChanged`
 * signal. Each value is modelled as the string that `String.valueOf` renders
 * from the variant's payload. The unit's live lifecycle values, read from its
 * property cache at call time, are plain string parameters.
 */
module StateTuples {

  /** Property names of the three lifecycle fields (`Unit.Property`). */
  const LoadStateKey: string := "LoadState"
  const ActiveStateKey: string := "ActiveState"
  const SubStateKey: string := "SubState"

  /** Placeholder for a field that a change-set does not carry. */
  const Missing: string := "-"

  type ChangeSet = map<string, string>

  /** The constructor `StateTuple(load, active, sub)`; the destructors are the getters. */
  datatype StateTuple = StateTuple(loadState: string, activeState: string, subState: string)

  /** Java's `Map.getOrDefault`. */
  function GetOrDefault(changes: ChangeSet, key: string, default: string): string {
    if key in changes then changes[key] else default
  }

  /**
   * `StateTuple.of(unit)`: the unit's live values, which is what
   * `of(unit, map)` gives for an empty change-set.
   */
  function OfUnit(liveLoad: string, liveActive: string, liveSub: string): (t: StateTuple)
    ensures t == OfUnitAndChanges(liveLoad, liveActive, liveSub, map[])
  {
    StateTuple(liveLoad, liveActive, liveSub)
  }

  /** `StateTuple.of(map)`: each field from the change-set, "-" where it is absent. */
  function OfChanges(changes: ChangeSet): (t: StateTuple)
    ensures LoadStateKey in changes ==> t.loadState == changes[LoadStateKey]
    ensures LoadStateKey !in changes ==> t.loadState == Missing
    ensures ActiveStateKey in changes ==> t.activeState == changes[ActiveStateKey]
    ensures ActiveStateKey !in changes ==> t.activeState == Missing
    ensures SubStateKey in changes ==> t.subState == changes[SubStateKey]
    ensures SubStateKey !in changes ==> t.subState == Missing
  {
    StateTuple(GetOrDefault(changes, LoadStateKey, Missing),
               GetOrDefault(changes, ActiveStateKey, Missing),
               GetOrDefault(changes, SubStateKey, Missing))
  }

  /**
   * `StateTuple.of(unit, map)`: each field from the change-set, falling back
   * to the unit's live value where it is absent.
   */
  function OfUnitAndChanges(liveLoad: string, liveActive: string, liveSub: string, changes: ChangeSet): (t: StateTuple)
    ensures LoadStateKey in changes ==> t.loadState == changes[LoadStateKey]
    ensures LoadStateKey !in changes ==> t.loadState == liveLoad
    ensures ActiveStateKey in changes ==> t.activeState == changes[ActiveStateKey]
    ensures ActiveStateKey !in changes ==> t.activeState == liveActive
    ensures SubStateKey in changes ==> t.subState == changes[SubStateKey]
    ensures SubStateKey !in changes ==> t.subState == liveSub
  {
    StateTuple(GetOrDefault(changes, LoadStateKey, liveLoad),
               GetOrDefault(changes, ActiveStateKey, liveActive),
               GetOrDefault(changes, SubStateKey, liveSub))
  }

  /** The getters return exactly the constructor's arguments. */
  lemma GettersReturnArguments(load: string, active: string, sub: string)
    ensures var t := StateTuple(load, active, sub);
            t.loadState == load && t.activeState == active && t.subState == sub
  {
  }

  /** `of(map)` is `of(unit, map)` over a unit whose fields all read "-". */
  lemma OfChangesFallsBackToMissing(changes: ChangeSet)
    ensures OfChanges(changes) == OfUnitAndChanges(Missing, Missing, Missing, changes)
  {
  }

  /** With all three keys present, `of(unit, map)` ignores the unit and equals `of(map)`. */
  lemma OfUnitAndFullChanges(load1: string, active1: string, sub1: string,
                             load2: string, active2: string, sub2: string, changes: ChangeSet)
    requires LoadStateKey in changes && ActiveStateKey in changes && SubStateKey in changes
    ensures OfUnitAndChanges(load1, active1, sub1, changes) == OfUnitAndChanges(load2, active2, sub2, changes)
    ensures OfUnitAndChanges(load1, active1, sub1, changes) == OfChanges(changes)
  {
  }

  /** Both change-sets carry `key`, with the same value, or neither carries it. */
  predicate AgreeOnKey(c1: ChangeSet, c2: ChangeSet, key: string) {
    (key in c1 <==> key in c2) && (key in c1 ==> c1[key] == c2[key])
  }

  /** Only the three lifecycle keys of a change-set affect the tuple. */
  lemma OnlyLifecycleKeysMatter(liveLoad: string, liveActive: string, liveSub: string, c1: ChangeSet, c2: ChangeSet)
    requires AgreeOnKey(c1, c2, LoadStateKey) && AgreeOnKey(c1, c2, ActiveStateKey) && AgreeOnKey(c1, c2, SubStateKey)
    ensures OfUnitAndChanges(liveLoad, liveActive, liveSub, c1) == OfUnitAndChanges(liveLoad, liveActive, liveSub, c2)
    ensures OfChanges(c1) == OfChanges(c2)
  {
  }

  /**
   * Resolving two change-sets one after the other, each falling back to the
   * tuple the previous one produced, equals resolving their union (later
   * values win) against the unit's live values.
   */
  lemma SuccessiveChangesCoalesce(liveLoad: string, liveActive: string, liveSub: string, c1: ChangeSet, c2: ChangeSet)
    ensures var t1 := OfUnitAndChanges(liveLoad, liveActive, liveSub, c1);
            OfUnitAndChanges(t1.loadState, t1.activeState, t1.subState, c2) ==
            OfUnitAndChanges(liveLoad, liveActive, liveSub, c1 + c2)
  {
  }

  /** A change of the active state alone keeps the load and sub states. */
  lemma DeactivatingKeepsOtherFields()
    ensures OfUnitAndChanges("loaded", "active", "running", map[ActiveStateKey := "deactivating"]) ==
            StateTuple("loaded", "deactivating", "running")
  {
  }
}
