/**
 * Deriving a food's storage name from its resource identifier:
 * `utopia:config/almond.config.json` is stored as `almond`.
 */
module ConfigNames {

  const MOD_ID: string := "utopia"

  /** The segment stripped first: `<mod id>:config/`. */
  const PREFIX: string := MOD_ID + ":config/"

  /** The segment stripped second: the file suffix. */
  const SUFFIX: string := ".config.json"

  /** A namespaced resource identifier; its string form is `namespace:path`. */
  datatype Identifier = Identifier(namespace: string, path: string) {
    function ToString(): string {
      namespace + ":" + path
    }
  }

  /** `segment` occurs in `s` starting at index `i`. */
  predicate OccursAt(s: string, segment: string, i: int) {
    0 <= i && i + |segment| <= |s| && s[i..i + |segment|] == segment
  }

  /**
   * String.remove: replaces every occurrence of `segment` by the empty string,
   * scanning once from left to right over non-overlapping occurrences (the
   * behaviour of Kotlin's `replace`). An empty segment leaves `s` as it is.
   */
  function Remove(s: string, segment: string): (r: string)
    ensures |r| <= |s|
    ensures |segment| > 0 && OccursAt(s, segment, 0) ==> |r| < |s|
    decreases |s|
  {
    if |segment| == 0 || |s| < |segment| then s
    else if s[..|segment|] == segment then Remove(s[|segment|..], segment)
    else [s[0]] + Remove(s[1..], segment)
  }

  /** The storage key of a config resource: its string form without the prefix and the suffix. */
  function StorageName(id: Identifier): (name: string)
    ensures |name| <= |id.ToString()|
    ensures (forall i :: 0 <= i <= |id.ToString()| ==> !OccursAt(id.ToString(), PREFIX, i)) &&
            (forall i :: 0 <= i <= |id.ToString()| ==> !OccursAt(id.ToString(), SUFFIX, i)) ==>
              name == id.ToString()
  {
    var s := id.ToString();
    if (forall i :: 0 <= i <= |s| ==> !OccursAt(s, PREFIX, i)) && (forall i :: 0 <= i <= |s| ==> !OccursAt(s, SUFFIX, i)) then
      RemoveAbsent(s, PREFIX);
      RemoveAbsent(s, SUFFIX);
      Remove(Remove(s, PREFIX), SUFFIX)
    else
      Remove(Remove(s, PREFIX), SUFFIX)
  }

  /** Removing a segment that does not occur leaves the string unchanged. */
  lemma {:induction false} RemoveAbsent(s: string, segment: string)
    requires forall i :: !OccursAt(s, segment, i)
    ensures Remove(s, segment) == s
    decreases |s|
  {
    if |segment| == 0 || |s| < |segment| {
    } else {
      assert !OccursAt(s, segment, 0);
      forall i ensures !OccursAt(s[1..], segment, i) {
        if OccursAt(s[1..], segment, i) {
          assert s[1..][i..i + |segment|] == s[i + 1..i + 1 + |segment|];
          assert OccursAt(s, segment, i + 1);
        }
      }
      RemoveAbsent(s[1..], segment);
    }
  }

  /** A leading occurrence of the segment is removed and the scan continues after it. */
  lemma RemoveLeading(s: string, segment: string)
    requires |segment| > 0
    ensures Remove(segment + s, segment) == Remove(s, segment)
  {
    assert (segment + s)[..|segment|] == segment;
    assert (segment + s)[|segment|..] == s;
  }

  /**
   * A trailing segment that has no earlier occurrence is removed exactly,
   * leaving what came before it.
   */
  lemma {:induction false} RemoveTrailing(n: string, segment: string)
    requires |segment| > 0
    requires forall i :: 0 <= i < |n| ==> !OccursAt(n + segment, segment, i)
    ensures Remove(n + segment, segment) == n
    decreases |n|
  {
    if n == [] {
      assert n + segment == segment;
      assert segment[..|segment|] == segment;
      assert segment[|segment|..] == [];
    } else {
      assert !OccursAt(n + segment, segment, 0);
      assert (n + segment)[..|segment|] != segment;
      assert (n + segment)[1..] == n[1..] + segment;
      forall i | 0 <= i < |n[1..]| ensures !OccursAt(n[1..] + segment, segment, i) {
        if OccursAt(n[1..] + segment, segment, i) {
          assert (n[1..] + segment)[i..i + |segment|] == (n + segment)[i + 1..i + 1 + |segment|];
          assert OccursAt(n + segment, segment, i + 1);
        }
      }
      RemoveTrailing(n[1..], segment);
    }
  }

  /**
   * The resource `utopia:config/<n>.config.json` is stored under `n`, provided
   * that `n.config.json` holds no copy of the prefix and `n` does not itself
   * start a copy of the suffix.
   */
  lemma StorageNameOfConfigFile(n: string)
    requires forall i :: !OccursAt(n + SUFFIX, PREFIX, i)
    requires forall i :: 0 <= i < |n| ==> !OccursAt(n + SUFFIX, SUFFIX, i)
    ensures StorageName(Identifier(MOD_ID, "config/" + n + SUFFIX)) == n
  {
    var id := Identifier(MOD_ID, "config/" + n + SUFFIX);
    assert id.ToString() == PREFIX + (n + SUFFIX);
    RemoveLeading(n + SUFFIX, PREFIX);
    RemoveAbsent(n + SUFFIX, PREFIX);
    RemoveTrailing(n, SUFFIX);
  }

  /** The example of the source's own comment: `utopia:config/almond.config.json` becomes `almond`. */
  lemma AlmondStorageName()
    ensures StorageName(Identifier("utopia", "config/almond.config.json")) == "almond"
  {
    var s := "almond" + SUFFIX;
    forall i ensures !OccursAt(s, PREFIX, i) {
      if 0 <= i <= |s| - |PREFIX| {
        assert s[i] != PREFIX[0];
        assert s[i..i + |PREFIX|][0] == s[i];
      }
    }
    forall i | 0 <= i < 6 ensures !OccursAt(s, SUFFIX, i) {
      assert s[i] != SUFFIX[0];
      assert s[i..i + |SUFFIX|][0] == s[i];
    }
    StorageNameOfConfigFile("almond");
    assert "config/" + "almond" + SUFFIX == "config/almond.config.json";
  }
}
