/** The hard-coded loot tables, the magnitude tiers that pick one, and the
    `{rock}` placeholder substitution applied before sampling. */
module Loot {
  import opened Strings

  /** The loot tables by key, as the mod declares them. */
  const LootTables: map<string, seq<string>> :=
    map[
      "preshock_weak" := [
        "game:coal-brown", "game:coal-black", "game:clay-red", "game:clay-blue", "game:clay-fire",
        "game:clear-quartz", "game:ore-nativecopper-{rock}", "game:nugget-nativecopper", "game:amethyst",
        "game:flint", "game:gear-rusty", "game:gem-olivine_peridot-rough", "game:nugget-bismuthinite",
        "game:nugget-cassiterite", "game:nugget-galena", "game:nugget-hematite", "game:nugget-malachite",
        "game:ore-alum-{rock}", "game:ore-anthracite-{rock}", "game:ore-bituminouscoal-{rock}",
        "game:ore-borax-{rock}", "game:ore-olivine-{rock}", "game:stone-{rock}", "game:salt",
        "game:saltpeter", "game:rosequartz", "game:smokyquartz", "game:potash"],
      "preshock_medium" := [
        "game:clay-fire", "game:ore-copper-{rock}", "game:ore-halite-{rock}", "game:ore-lead-{rock}",
        "game:clear-quartz", "game:ore-tin-{rock}", "game:ore-silver-{rock}", "game:ore-gold-{rock}",
        "game:flint", "game:gear-rusty", "game:gem-emerald-rough", "game:gem-olivine_peridot-rough",
        "game:nugget-chromite", "game:nugget-nativecopper", "game:nugget-nativesilver",
        "game:nugget-nativegold", "game:ore-alum-{rock}", "game:ore-borax-{rock}", "game:salt",
        "game:saltpeter", "game:potash"],
      "preshock_strong" := [
        "game:clay-fire", "game:ore-copper-{rock}", "game:ore-halite-{rock}", "game:ore-lead-{rock}",
        "game:clear-quartz", "game:ore-tin-{rock}", "game:ore-silver-{rock}", "game:ore-gold-{rock}",
        "game:flint", "game:gear-rusty", "game:gem-emerald-rough", "game:gem-olivine_peridot-rough",
        "game:nugget-chromite", "game:nugget-nativecopper", "game:nugget-nativesilver",
        "game:nugget-nativegold", "game:ore-alum-{rock}", "game:ore-borax-{rock}", "game:salt",
        "game:saltpeter", "game:potash"],
      "quake_weak" := [
        "game:ore-copper-{rock}", "game:ore-halite-{rock}", "game:clay-fire", "game:ore-lead-{rock}",
        "game:clear-quartz", "game:flint", "game:gear-rusty", "game:gem-olivine_peridot-rough",
        "game:nugget-bismuthinite", "game:nugget-cassiterite", "game:nugget-galena", "game:nugget-hematite",
        "game:nugget-nativecopper", "game:ore-anthracite-{rock}", "game:ore-bituminouscoal-{rock}",
        "game:ore-borax-{rock}", "game:salt", "game:saltpeter", "game:rosequartz", "game:smokyquartz",
        "game:potash"],
      "quake_medium" := [
        "game:ore-tin-{rock}", "game:ore-silver-{rock}", "game:ore-gold-{rock}", "game:ore-borax",
        "game:ore-cinnabar", "game:ore-alum", "game:amethyst", "game:clay-fire", "game:flint",
        "game:gear-rusty", "game:gem-emerald-rough", "game:gem-olivine_peridot-rough",
        "game:nugget-nativesilver", "game:nugget-nativegold", "game:ore-borax-{rock}", "game:salt",
        "game:saltpeter", "game:powder-sulfur", "game:powder-sylvite", "game:powder-alum",
        "game:powder-borax", "game:powder-cinnabar", "game:powder-flint", "game:powder-lapislazuli",
        "game:potash"],
      "quake_strong" := [
        "game:ore-iron-{rock}", "game:ore-hematite-{rock}", "game:ore-uranium-{rock}", "game:clay-fire",
        "game:ore-sulfur-{rock}", "game:ore-fluorite-{rock}", "game:ore-corundum-{rock}",
        "game:ore-lapislazuli-{rock}", "game:gear-temporal", "game:gear-rusty", "game:gem-diamond-rough",
        "game:ore-phosphorite-{rock}", "game:powder-sulfur", "game:powder-sylvite", "game:powder-cinnabar",
        "game:powder-lapislazuli", "game:potash"]
    ]

  /** TableForPreshock: weak up to magnitude 2, medium up to 5, strong above. */
  function TableForPreshock(magnitude: int): (key: string)
    ensures key in LootTables && |LootTables[key]| > 0
    ensures key == "preshock_" + TierName(magnitude)
  {
    if magnitude <= 2 then "preshock_weak"
    else if magnitude <= 5 then "preshock_medium"
    else "preshock_strong"
  }

  /** TableForQuake: the same thresholds over the quake tables. */
  function TableForQuake(magnitude: int): (key: string)
    ensures key in LootTables && |LootTables[key]| > 0
    ensures key == "quake_" + TierName(magnitude)
  {
    if magnitude <= 2 then "quake_weak"
    else if magnitude <= 5 then "quake_medium"
    else "quake_strong"
  }

  /** The tier both table choices share. */
  function TierName(magnitude: int): string {
    if magnitude <= 2 then "weak" else if magnitude <= 5 then "medium" else "strong"
  }

  /** A stronger magnitude never picks a weaker tier. */
  lemma TierMonotone(m1: int, m2: int)
    requires m1 <= m2
    ensures TierRank(TierName(m1)) <= TierRank(TierName(m2))
  {
  }

  function TierRank(tier: string): int {
    if tier == "weak" then 0 else if tier == "medium" then 1 else 2
  }

  const Placeholder := "{rock}"

  /** One code of ExpandCodesWithRock: the placeholder replaced by the rock
      wherever it occurs, a code without it kept as is. */
  function ExpandCode(code: string, rock: string): string {
    if Contains(code, Placeholder) then ReplaceAll(code, Placeholder, rock) else code
  }

  /** ExpandCodesWithRock, element by element and in order. */
  function ExpandCodesWithRock(codes: seq<string>, rock: string): (r: seq<string>)
    ensures |r| == |codes|
    ensures forall i :: 0 <= i < |codes| ==> r[i] == ExpandCode(codes[i], rock)
  {
    seq(|codes|, i requires 0 <= i < |codes| => ExpandCode(codes[i], rock))
  }

  /** After expansion with a rock name free of '{', a code whose only '{'
      characters open placeholders holds no placeholder any more. */
  lemma ExpandedHasNoPlaceholder(code: string, rock: string)
    requires CountChar(rock, '{') == 0
    requires CountChar(code, '{') == Occurrences(code, Placeholder)
    ensures !Contains(ExpandCode(code, rock), Placeholder)
  {
    if Contains(code, Placeholder) {
      var expanded := ReplaceAll(code, Placeholder, rock);
      ReplaceAllCountChar(code, Placeholder, rock, '{');
      var o := Occurrences(code, Placeholder);
      assert CountChar(Placeholder, '{') == 1;
      assert o * CountChar(Placeholder, '{') == o && o * CountChar(rock, '{') == 0;
      assert CountChar(expanded, '{') == 0;
      NoCharNoContains(expanded, Placeholder, '{');
    }
  }

  /** A code without the placeholder comes through unchanged, and expansion
      keeps the code's length apart from the rock name's length difference. */
  lemma ExpandCodeLength(code: string, rock: string)
    ensures !Contains(code, Placeholder) ==> ExpandCode(code, rock) == code
    ensures Contains(code, Placeholder) ==>
              |ExpandCode(code, rock)| == |code| + Occurrences(code, Placeholder) * (|rock| - 6)
  {
    if Contains(code, Placeholder) {
      ReplaceAllLength(code, Placeholder, rock);
    }
  }
}
