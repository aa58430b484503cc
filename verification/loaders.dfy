/** The `LoaderMetadataGetter` interface: one constructor per loader family
    in place of the reflective instantiation of a class, each carrying the
    memoised raw lists of its instance. */
module Loaders {
  import opened Base
  import Memo
  import GameIndex
  import FabricMeta
  import QuiltMeta
  import ForgeMeta

  datatype Kind = FabricKind | QuiltKind | ForgeKind

  /** A getter instance with its caches (`None` is the initial `null`). */
  datatype Getter =
    | Fabric(games: Option<seq<GameIndex.GameVersion>>, yarns: Option<seq<FabricMeta.YarnVersion>>)
    | Quilt(games: Option<seq<GameIndex.GameVersion>>, mappings: Option<seq<QuiltMeta.LoaderVersion>>)
    | Forge(versions: Option<seq<string>>)

  /** What each upstream document would yield if it were fetched now. */
  datatype Upstream = Upstream(
    fabricGames: Fetch<seq<GameIndex.GameVersion>>,
    fabricYarns: Fetch<seq<FabricMeta.YarnVersion>>,
    quiltGames: Fetch<seq<GameIndex.GameVersion>>,
    quiltMappings: Fetch<seq<QuiltMeta.LoaderVersion>>,
    forgeMetadata: Fetch<seq<string>>)

  /** The list returned (or the exception thrown), the instance afterwards,
      and whether the call went to the network. */
  datatype Reply = Reply(versions: Result<seq<string>>, getter: Getter, fetched: bool)

  /** The installer's loader table: radio-button key and implementing class. */
  const Table: seq<(string, Kind)> := [("fabric", FabricKind), ("quilt", QuiltKind), ("forge", ForgeKind)]

  /** `getDeclaredConstructor().newInstance()`: every cache starts empty. */
  function New(kind: Kind): (g: Getter)
    ensures !HasGameList(g) && !HasLoaderList(g)
    ensures KindOf(g) == kind
  {
    match kind
    case FabricKind => Fabric(None, None)
    case QuiltKind => Quilt(None, None)
    case ForgeKind => Forge(None)
  }

  function KindOf(g: Getter): Kind {
    match g
    case Fabric(_, _) => FabricKind
    case Quilt(_, _) => QuiltKind
    case Forge(_) => ForgeKind
  }

  /** Whether the list behind `getMinecraftVersions` is cached. */
  predicate HasGameList(g: Getter) {
    match g
    case Fabric(games, _) => games.Some?
    case Quilt(games, _) => games.Some?
    case Forge(versions) => versions.Some?
  }

  /** Whether the list behind `getLoaderVersions` is cached (Forge keeps a
      single list for both). */
  predicate HasLoaderList(g: Getter) {
    match g
    case Fabric(_, yarns) => yarns.Some?
    case Quilt(_, mappings) => mappings.Some?
    case Forge(versions) => versions.Some?
  }

  /** `getLoaderName()`. */
  function LoaderName(g: Getter): (name: string)
    ensures name == (if g.Forge? then ForgeMeta.LoaderName else FabricMeta.LoaderName)
  {
    match g
    case Fabric(_, _) => FabricMeta.LoaderName
    case Quilt(_, _) => QuiltMeta.LoaderName
    case Forge(_) => ForgeMeta.LoaderName
  }

  /** On a cache miss, the cache afterwards holds what the upstream yielded,
      and a failed fetch leaves it empty and answers with the failure. */
  predicate FilledFrom<T(==)>(cache: Option<seq<T>>, versions: Result<seq<string>>, upstream: Fetch<seq<T>>) {
    && (upstream.Fetched? ==> cache == Some(upstream.content))
    && (upstream.FetchFailed? ==> cache.None? && versions == Err(upstream.reason))
  }

  /** `getMinecraftVersions(stableOnly)`: read the game list through its
      cache, then filter it with the family's rule. */
  function MinecraftVersions(g: Getter, stableOnly: bool, up: Upstream): (r: Reply)
    ensures KindOf(r.getter) == KindOf(g)
    ensures r.fetched <==> !HasGameList(g)
    ensures r.versions.Ok? <==> HasGameList(r.getter)
    ensures HasGameList(g) ==> r.getter == g
    ensures g.Fabric? ==> r.getter.yarns == g.yarns
    ensures g.Quilt? ==> r.getter.mappings == g.mappings
    ensures g.Fabric? && g.games.None? ==> FilledFrom(r.getter.games, r.versions, up.fabricGames)
    ensures g.Quilt? && g.games.None? ==> FilledFrom(r.getter.games, r.versions, up.quiltGames)
    ensures g.Forge? && g.versions.None? ==> FilledFrom(r.getter.versions, r.versions, up.forgeMetadata)
    ensures r.versions.Ok? ==> r.versions.value == match r.getter
      case Fabric(games, _) => GameIndex.MinecraftVersions(games.value, stableOnly)
      case Quilt(games, _) => GameIndex.MinecraftVersions(games.value, stableOnly)
      case Forge(versions) => ForgeMeta.MinecraftVersions(versions.value)
  {
    match g
    case Fabric(games, yarns) =>
      var l := Memo.Load(games, up.fabricGames);
      var list := if l.list.Ok? then Ok(GameIndex.MinecraftVersions(l.list.value, stableOnly)) else Err(l.list.message);
      Reply(list, Fabric(l.cache, yarns), l.fetched)
    case Quilt(games, mappings) =>
      var l := Memo.Load(games, up.quiltGames);
      var list := if l.list.Ok? then Ok(GameIndex.MinecraftVersions(l.list.value, stableOnly)) else Err(l.list.message);
      Reply(list, Quilt(l.cache, mappings), l.fetched)
    case Forge(versions) =>
      var l := Memo.Load(versions, up.forgeMetadata);
      var list := if l.list.Ok? then Ok(ForgeMeta.MinecraftVersions(l.list.value)) else Err(l.list.message);
      Reply(list, Forge(l.cache), l.fetched)
  }

  /** `getLoaderVersions(mc, stableOnly)`: read the loader list through its
      cache, then filter it with the family's rule. */
  function LoaderVersions(g: Getter, mc: string, stableOnly: bool, up: Upstream): (r: Reply)
    ensures KindOf(r.getter) == KindOf(g)
    ensures r.fetched <==> !HasLoaderList(g)
    ensures r.versions.Ok? <==> HasLoaderList(r.getter)
    ensures HasLoaderList(g) ==> r.getter == g
    ensures !g.Forge? ==> r.getter.games == g.games
    ensures g.Fabric? && g.yarns.None? ==> FilledFrom(r.getter.yarns, r.versions, up.fabricYarns)
    ensures g.Quilt? && g.mappings.None? ==> FilledFrom(r.getter.mappings, r.versions, up.quiltMappings)
    ensures g.Forge? && g.versions.None? ==> FilledFrom(r.getter.versions, r.versions, up.forgeMetadata)
    ensures r.versions.Ok? ==> r.versions.value == match r.getter
      case Fabric(_, yarns) => FabricMeta.LoaderVersions(yarns.value, mc, stableOnly)
      case Quilt(_, mappings) => QuiltMeta.LoaderVersions(mappings.value, mc)
      case Forge(versions) => ForgeMeta.LoaderVersions(versions.value, mc)
  {
    match g
    case Fabric(games, yarns) =>
      var l := Memo.Load(yarns, up.fabricYarns);
      var list := if l.list.Ok? then Ok(FabricMeta.LoaderVersions(l.list.value, mc, stableOnly)) else Err(l.list.message);
      Reply(list, Fabric(games, l.cache), l.fetched)
    case Quilt(games, mappings) =>
      var l := Memo.Load(mappings, up.quiltMappings);
      var list := if l.list.Ok? then Ok(QuiltMeta.LoaderVersions(l.list.value, mc)) else Err(l.list.message);
      Reply(list, Quilt(games, l.cache), l.fetched)
    case Forge(versions) =>
      var l := Memo.Load(versions, up.forgeMetadata);
      var list := if l.list.Ok? then Ok(ForgeMeta.LoaderVersions(l.list.value, mc)) else Err(l.list.message);
      Reply(list, Forge(l.cache), l.fetched)
  }

  /** Forge ignores `stableOnly` in both operations, and Quilt ignores it
      for loader versions: the flag changes neither result nor cache. */
  lemma StableOnlyIgnored(g: Getter, mc: string, up: Upstream)
    ensures g.Forge? ==> MinecraftVersions(g, true, up) == MinecraftVersions(g, false, up)
    ensures !g.Fabric? ==> LoaderVersions(g, mc, true, up) == LoaderVersions(g, mc, false, up)
  {
  }

  /** Two consecutive `getMinecraftVersions` calls on one instance: the second
      never fetches after a successful first, and fetches again after a failed
      one. */
  lemma MinecraftVersionsMemoised(g: Getter, s1: bool, s2: bool, up1: Upstream, up2: Upstream)
    ensures var r1 := MinecraftVersions(g, s1, up1);
            var r2 := MinecraftVersions(r1.getter, s2, up2);
            && (r1.versions.Ok? ==> !r2.fetched && r2.getter == r1.getter && r2.versions.Ok?)
            && (r1.versions.Err? ==> r2.fetched)
  {
  }

  /** Forge keeps one cache for both operations: after any successful call,
      neither operation fetches again. */
  lemma ForgeSharesOneFetch(c: Option<seq<string>>, mc: string, s: bool, up1: Upstream, up2: Upstream)
    ensures var r1 := MinecraftVersions(Forge(c), s, up1);
            r1.versions.Ok? ==> !LoaderVersions(r1.getter, mc, s, up2).fetched
  {
  }

  /** Quilt reports the Fabric name, so a pack's "quilt" entry is never the
      one its getter looks up, while Fabric and Quilt read the same entry. */
  lemma QuiltUsesFabricName()
    ensures LoaderName(New(QuiltKind)) == LoaderName(New(FabricKind)) == "fabric"
    ensures LoaderName(New(QuiltKind)) != Table[1].0
    ensures forall i :: 0 <= i < |Table| && Table[i].1 != QuiltKind ==> LoaderName(New(Table[i].1)) == Table[i].0
  {
  }
}
