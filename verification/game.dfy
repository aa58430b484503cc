/** The game-version index that the Fabric and Quilt meta services both
    publish: a JSON array of `{version, stable}` records, newest first. */
module GameIndex {
  import opened Seqs

  datatype GameVersion = GameVersion(version: string, stable: bool)

  /** `v.isStable() || !stableOnly`. */
  predicate Listed(g: GameVersion, stableOnly: bool) {
    g.stable || !stableOnly
  }

  /** `getMinecraftVersions(stableOnly)` of both paired-list strategies. */
  function MinecraftVersions(games: seq<GameVersion>, stableOnly: bool): (r: seq<string>)
    ensures |r| <= |games|
    ensures forall v :: v in r <==> exists i :: 0 <= i < |games| && games[i].version == v && Listed(games[i], stableOnly)
  {
    var kept := Filter(games, g => Listed(g, stableOnly));
    var r := Map(kept, (g: GameVersion) => g.version);
    forall v | v in r ensures exists i :: 0 <= i < |games| && games[i].version == v && Listed(games[i], stableOnly) {
      var k :| 0 <= k < |kept| && kept[k].version == v;
      assert kept[k] in games;
    }
    forall v, i | 0 <= i < |games| && games[i].version == v && Listed(games[i], stableOnly) ensures v in r {
      assert games[i] in kept;
      var k :| 0 <= k < |kept| && kept[k] == games[i];
      assert r[k] == v;
    }
    r
  }

  /** Without the stability filter every game version is listed, one for
      one and in upstream order. */
  lemma AllVersionsWhenUnfiltered(games: seq<GameVersion>)
    ensures |MinecraftVersions(games, false)| == |games|
    ensures forall i :: 0 <= i < |games| ==> MinecraftVersions(games, false)[i] == games[i].version
  {
    FilterKeepsAll(games, g => Listed(g, false));
  }

  /** The stable list is the unfiltered list with the unstable entries
      dropped, order kept. */
  lemma StableIsSubsequence(games: seq<GameVersion>)
    ensures IsSubsequence(MinecraftVersions(games, true), MinecraftVersions(games, false))
  {
    FilterMonotone(games, g => Listed(g, true), g => Listed(g, false));
    MapSubsequence(Filter(games, g => Listed(g, true)), Filter(games, g => Listed(g, false)),
                   (g: GameVersion) => g.version);
  }

  /** The list grows entry by entry: a listed entry appends its version, an
      unlisted one adds nothing. With the empty case this fixes order and
      duplicates. */
  lemma MinecraftVersionsAppend(games: seq<GameVersion>, g: GameVersion, stableOnly: bool)
    ensures MinecraftVersions(games + [g], stableOnly) ==
      MinecraftVersions(games, stableOnly) + (if Listed(g, stableOnly) then [g.version] else [])
  {
    FilterAppend(games, g, g' => Listed(g', stableOnly));
    MapAppend(Filter(games, g' => Listed(g', stableOnly)), g, (g': GameVersion) => g'.version);
  }

  /** The worked example: one stable release and one release candidate. */
  lemma Example()
    ensures MinecraftVersions([GameVersion("1.20.1", true), GameVersion("1.21-rc1", false)], true) == ["1.20.1"]
    ensures MinecraftVersions([GameVersion("1.20.1", true), GameVersion("1.21-rc1", false)], false) == ["1.20.1", "1.21-rc1"]
  {
    var a, b := GameVersion("1.20.1", true), GameVersion("1.21-rc1", false);
    assert [a] + [b] == [a, b];
    assert [] + [a] == [a];
    MinecraftVersionsAppend([], a, true);
    MinecraftVersionsAppend([a], b, true);
    AllVersionsWhenUnfiltered([a, b]);
  }
}
