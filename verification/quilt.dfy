/** The Quilt strategy: game versions and quilt-mappings versions from
    Quilt's meta service. Mapping entries carry no stability flag. */
module QuiltMeta {
  import opened Seqs

  /** Quilt reports the Fabric loader name, so it shares Fabric's entry in a
      pack's `versions` table. */
  const LoaderName: string := "fabric"

  /** A quilt-mappings entry; of its fields only these two are read. */
  datatype LoaderVersion = LoaderVersion(version: string, gameVersion: string)

  predicate IsFor(l: LoaderVersion, mc: string) {
    l.gameVersion == mc
  }

  /** `getLoaderVersions(mc, _)`: no stability filter at all. */
  function LoaderVersions(loaders: seq<LoaderVersion>, mc: string): (r: seq<string>)
    ensures |r| <= |loaders|
    ensures forall v :: v in r <==> exists i :: 0 <= i < |loaders| && loaders[i].version == v && loaders[i].gameVersion == mc
  {
    var kept := Filter(loaders, l => IsFor(l, mc));
    var r := Map(kept, (l: LoaderVersion) => l.version);
    forall v | v in r ensures exists i :: 0 <= i < |loaders| && loaders[i].version == v && loaders[i].gameVersion == mc {
      var k :| 0 <= k < |kept| && kept[k].version == v;
      assert kept[k] in loaders;
    }
    forall v, i | 0 <= i < |loaders| && loaders[i].version == v && loaders[i].gameVersion == mc ensures v in r {
      assert loaders[i] in kept;
      var k :| 0 <= k < |kept| && kept[k] == loaders[i];
      assert r[k] == v;
    }
    r
  }

  /** The list grows entry by entry: an entry for `mc` appends its version,
      even a repeated one; any other adds nothing. */
  lemma LoaderVersionsAppend(loaders: seq<LoaderVersion>, l: LoaderVersion, mc: string)
    ensures LoaderVersions(loaders + [l], mc) ==
      LoaderVersions(loaders, mc) + (if l.gameVersion == mc then [l.version] else [])
  {
    FilterAppend(loaders, l, l' => IsFor(l', mc));
    MapAppend(Filter(loaders, l' => IsFor(l', mc)), l, (l': LoaderVersion) => l'.version);
  }

  /** When every entry is for `mc`, all of them are listed in upstream order,
      duplicates included. */
  lemma AllForOneGame(loaders: seq<LoaderVersion>, mc: string)
    requires forall i :: 0 <= i < |loaders| ==> loaders[i].gameVersion == mc
    ensures |LoaderVersions(loaders, mc)| == |loaders|
    ensures forall i :: 0 <= i < |loaders| ==> LoaderVersions(loaders, mc)[i] == loaders[i].version
  {
    FilterKeepsAll(loaders, l => IsFor(l, mc));
  }
}
