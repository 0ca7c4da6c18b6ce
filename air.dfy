/** The air filter of the Schem and Litematic importers: which palette
    entries are skipped rather than written. */
module Air {
  import opened Text
  import opened BlockStrings

  /** The filter as written: any name containing "air" (SchemToBCF.hpp,
      LitematicToBCF.hpp `buildAirFilter`). */
  predicate IsAirAsWritten(name: string) {
    Contains(name, "air")
  }

  /** The base name of a block string, before any state list. */
  function BaseName(name: string): (b: string)
    ensures |b| <= |name| && b == name[..|b|]
  {
    ParseBlock(name, Verbatim).0
  }

  /** The filter as intended: the base name is one of the three air
      blocks. */
  predicate IsAir(name: string) {
    BaseName(name) in {"minecraft:air", "minecraft:cave_air", "minecraft:void_air"}
  }

  /** Every air block is also caught by the filter as written, which is
      therefore only ever too eager. */
  lemma AirIsAirAsWritten(name: string)
    requires IsAir(name)
    ensures IsAirAsWritten(name)
  {
    var b := BaseName(name);
    var k := |b| - 3;
    assert b[k..] == "air";
    assert name[k..k + 3] == b[k..];
    assert OccursAt(name, "air", k);
  }

  /** Stairs contain "air" and are not air: the filter as written drops
      every stair block. */
  lemma StairsAreDropped()
    ensures IsAirAsWritten("minecraft:oak_stairs")
    ensures !IsAir("minecraft:oak_stairs")
  {
    var s := "minecraft:oak_stairs";
    assert s[16..19] == "air";
    assert OccursAt(s, "air", 16);
    NoBracket(s);
  }

  lemma NoBracket(s: string)
    requires forall k :: 0 <= k < |s| ==> s[k] != '['
    ensures BaseName(s) == s
  {
  }
}
