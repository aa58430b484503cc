/** The Fabric strategy: game versions and yarn mapping versions, two JSON
    arrays from Fabric's meta service. */
module FabricMeta {
  import opened Seqs

  const LoaderName: string := "fabric"

  /** A yarn entry; of its fields only these three are read. */
  datatype YarnVersion = YarnVersion(version: string, stable: bool, gameVersion: string)

  /** `(v.isStable() || !stableOnly) && v.getGameVersion().equals(mcVersion)`. */
  predicate Listed(y: YarnVersion, mc: string, stableOnly: bool) {
    (y.stable || !stableOnly) && y.gameVersion == mc
  }

  /** `getLoaderVersions(mc, stableOnly)`. */
  function LoaderVersions(yarns: seq<YarnVersion>, mc: string, stableOnly: bool): (r: seq<string>)
    ensures |r| <= |yarns|
    ensures forall v :: v in r <==> exists i :: 0 <= i < |yarns| && yarns[i].version == v && Listed(yarns[i], mc, stableOnly)
  {
    var kept := Filter(yarns, y => Listed(y, mc, stableOnly));
    var r := Map(kept, (y: YarnVersion) => y.version);
    forall v | v in r ensures exists i :: 0 <= i < |yarns| && yarns[i].version == v && Listed(yarns[i], mc, stableOnly) {
      var k :| 0 <= k < |kept| && kept[k].version == v;
      assert kept[k] in yarns;
    }
    forall v, i | 0 <= i < |yarns| && yarns[i].version == v && Listed(yarns[i], mc, stableOnly) ensures v in r {
      assert yarns[i] in kept;
      var k :| 0 <= k < |kept| && kept[k] == yarns[i];
      assert r[k] == v;
    }
    r
  }

  /** The list grows entry by entry: a listed entry appends its version, any
      other adds nothing. With the empty case this fixes order and duplicates. */
  lemma LoaderVersionsAppend(yarns: seq<YarnVersion>, y: YarnVersion, mc: string, stableOnly: bool)
    ensures LoaderVersions(yarns + [y], mc, stableOnly) ==
      LoaderVersions(yarns, mc, stableOnly) + (if Listed(y, mc, stableOnly) then [y.version] else [])
  {
    FilterAppend(yarns, y, y' => Listed(y', mc, stableOnly));
    MapAppend(Filter(yarns, y' => Listed(y', mc, stableOnly)), y, (y': YarnVersion) => y'.version);
  }

  /** The stable list for `mc` is the full list for `mc` with the unstable
      entries dropped, order kept. */
  lemma StableIsSubsequence(yarns: seq<YarnVersion>, mc: string)
    ensures IsSubsequence(LoaderVersions(yarns, mc, true), LoaderVersions(yarns, mc, false))
  {
    FilterMonotone(yarns, y => Listed(y, mc, true), y => Listed(y, mc, false));
    MapSubsequence(Filter(yarns, y => Listed(y, mc, true)), Filter(yarns, y => Listed(y, mc, false)),
                   (y: YarnVersion) => y.version);
  }
}
