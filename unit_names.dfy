/**
 * Static name and object-path handling of the generic unit facade
 * (`Unit.normalizeName`, `Unit.extractName` and the name test of
 * `Unit#isAssignableFrom`).
 *
 * Java strings that may be null are `Option<string>`. The path-escaping
 * function of the `Systemd` class is not part of this model; it enters every
 * member that needs it as the parameter `escape`.
 */
module UnitNames {
  import opened Wrappers

  /** Object path of the systemd manager (`Systemd.OBJECT_PATH`). */
  const SystemdObjectPath: string := "/org/freedesktop/systemd1"

  /** Prefix of every unit object path (`Unit.OBJECT_PATH`). */
  const UnitObjectPath: string := SystemdObjectPath + "/unit/"

  /** Suffix that `Socket.create` normalises socket unit names with. */
  const SocketSuffix: string := ".socket"

  /** Java's `String.startsWith`. */
  predicate StartsWith(s: string, prefix: string) {
    |prefix| <= |s| && s[..|prefix|] == prefix
  }

  /** Java's `String.endsWith`. */
  predicate EndsWith(s: string, suffix: string) {
    |suffix| <= |s| && s[|s| - |suffix|..] == suffix
  }

  lemma AppendedEndsWith(s: string, suffix: string)
    ensures EndsWith(s + suffix, suffix) && StartsWith(s + suffix, s)
  {
    assert (s + suffix)[|s|..] == suffix;
    assert (s + suffix)[..|s|] == s;
  }

  lemma DropPrefix(prefix: string, x: string)
    ensures StartsWith(prefix + x, prefix) && (prefix + x)[|prefix|..] == x
  {
    assert (prefix + x)[..|prefix|] == prefix;
  }

  /**
   * `normalizeName`: the empty string for a null name, the name itself for a
   * null suffix, and otherwise the name with the suffix appended unless it
   * already ends with it.
   */
  function NormalizeName(name: Option<string>, suffix: Option<string>): (r: string)
    ensures name.None? ==> r == ""
    ensures name.Some? && suffix.None? ==> r == name.value
    ensures name.Some? && suffix.Some? ==>
      EndsWith(r, suffix.value) && StartsWith(r, name.value) &&
      (r == name.value <==> EndsWith(name.value, suffix.value)) &&
      (r != name.value ==> r == name.value + suffix.value)
  {
    match name
    case None => ""
    case Some(n) =>
      match suffix
      case None => n
      case Some(s) =>
        if EndsWith(n, s) then
          assert n[..|n|] == n;
          n
        else
          AppendedEndsWith(n, s);
          n + s
  }

  /** Normalising a normalised name with the same suffix changes nothing. */
  lemma NormalizeNameIdempotent(name: string, suffix: Option<string>)
    ensures NormalizeName(Some(NormalizeName(Some(name), suffix)), suffix) == NormalizeName(Some(name), suffix)
  {
  }

  /**
   * A short name and its already-suffixed form normalise to the same name, so
   * a lookup by either finds the same unit.
   */
  lemma NormalizeNameShortAndLong(name: string, suffix: string)
    requires !EndsWith(name, suffix)
    ensures NormalizeName(Some(name), Some(suffix)) == NormalizeName(Some(name + suffix), Some(suffix))
  {
    AppendedEndsWith(name, suffix);
  }

  /**
   * A null name is the one input where normalisation is not idempotent:
   * it yields "", and "" normalises to the suffix itself.
   */
  lemma NormalizeNullName(suffix: string)
    requires suffix != ""
    ensures NormalizeName(None, Some(suffix)) == ""
    ensures NormalizeName(Some(NormalizeName(None, Some(suffix))), Some(suffix)) == suffix
  {
    assert !EndsWith("", suffix);
  }

  /** The object path is non-null and starts with the unit object-path prefix. */
  predicate IsUnitObjectPath(objectPath: Option<string>) {
    objectPath.Some? && StartsWith(objectPath.value, UnitObjectPath)
  }

  /**
   * `extractName`: the part of a unit object path after the prefix, or ""
   * for a null path or one outside the unit namespace.
   */
  function ExtractName(objectPath: Option<string>): (r: string)
    ensures IsUnitObjectPath(objectPath) ==> objectPath.value == UnitObjectPath + r
    ensures !IsUnitObjectPath(objectPath) ==> r == ""
  {
    if IsUnitObjectPath(objectPath) then
      var p := objectPath.value;
      assert p == p[..|UnitObjectPath|] + p[|UnitObjectPath|..];
      p[|UnitObjectPath|..]
    else
      ""
  }

  /** Prefixing a name and extracting it again gives the name back. */
  lemma ExtractNameRoundTrip(x: string)
    ensures ExtractName(Some(UnitObjectPath + x)) == x
  {
    DropPrefix(UnitObjectPath, x);
  }

  /**
   * The test `isAssignableFrom` applies to a unit's name,
   * `extractName(p).equals(escapePath(name))`: the path is exactly the unit
   * object path of the escaped name; or else the escaped name is empty and the
   * path is null or outside the unit namespace (where `extractName` also
   * yields "").
   */
  function MatchesName(unitName: string, escape: string -> string, objectPath: Option<string>): (b: bool)
    ensures b <==> (objectPath == Some(UnitObjectPath + escape(unitName)) ||
                    (escape(unitName) == "" && !IsUnitObjectPath(objectPath)))
  {
    var e := escape(unitName);
    DropPrefix(UnitObjectPath, e);
    ExtractName(objectPath) == e
  }

  /** The object path a unit is created with matches that unit's name. */
  lemma CreatedPathMatchesName(unitName: string, escape: string -> string)
    ensures MatchesName(unitName, escape, Some(UnitObjectPath + escape(unitName)))
  {
  }

  /** An object path matches only names whose escaped forms agree. */
  lemma MatchingNamesAgree(n1: string, n2: string, escape: string -> string, objectPath: Option<string>)
    requires MatchesName(n1, escape, objectPath) && MatchesName(n2, escape, objectPath)
    ensures escape(n1) == escape(n2)
  {
    ExtractNameRoundTrip(escape(n1));
    ExtractNameRoundTrip(escape(n2));
  }

  /**
   * `Socket.create` instantiated: the normalised name of a non-null name ends
   * in ".socket", and the object path built from it matches that name.
   */
  lemma SocketCreatePath(name: Option<string>, escape: string -> string)
    ensures name.Some? ==> EndsWith(NormalizeName(name, Some(SocketSuffix)), SocketSuffix)
    ensures var n := NormalizeName(name, Some(SocketSuffix));
            MatchesName(n, escape, Some(UnitObjectPath + escape(n)))
  {
  }
}
