/** The Forge strategy: one flat list of `<minecraft>-<forge>` version strings
    read from Forge's maven metadata, split by the pattern `(.*?)-(.*)`. */
module ForgeMeta {
  import opened Base
  import opened Seqs

  const LoaderName: string := "forge"

  /** The characters that Java's `.` does not match outside DOTALL and
      UNIX_LINES mode. */
  predicate IsLineTerminator(c: char) {
    c == '\n' || c == '\r' || c == '\U{0085}' || c == '\U{2028}' || c == '\U{2029}'
  }

  predicate OnOneLine(s: string) {
    forall i :: 0 <= i < |s| ==> !IsLineTerminator(s[i])
  }

  /** Start of the line that holds position `i`. */
  function LineStart(s: string, i: nat): (r: nat)
    requires i <= |s|
    ensures r <= i
    ensures r == 0 || IsLineTerminator(s[r - 1])
    ensures forall k :: r <= k < i ==> !IsLineTerminator(s[k])
  {
    if i == 0 || IsLineTerminator(s[i - 1]) then i else LineStart(s, i - 1)
  }

  /** End of the line that holds position `i` (exclusive). */
  function LineEnd(s: string, i: nat): (r: nat)
    requires i <= |s|
    ensures i <= r <= |s|
    ensures r == |s| || IsLineTerminator(s[r])
    ensures forall k :: i <= k < r ==> !IsLineTerminator(s[k])
    decreases |s| - i
  {
    if i == |s| || IsLineTerminator(s[i]) then i else LineEnd(s, i + 1)
  }

  /** The two groups of a successful `VERSION_REG.matcher(entry).find()`. */
  datatype Split = Split(minecraft: string, loader: string)

  /** `find()` with the lazy `(.*?)-(.*)`: the match starts at the beginning
      of the line holding the first `-`, group 1 runs up to that hyphen and
      group 2 from just after it to the end of that line. An entry with no
      hyphen does not match. */
  function SplitEntry(e: string): (r: Option<Split>)
    ensures r.None? <==> '-' !in e
    ensures r.Some? ==> '-' !in r.value.minecraft
    ensures r.Some? ==> OnOneLine(r.value.minecraft) && OnOneLine(r.value.loader)
    ensures r.Some? && OnOneLine(e) ==> e == r.value.minecraft + "-" + r.value.loader
  {
    var h := IndexOf(e, '-');
    if h == |e| then None
    else
      var start, end := LineStart(e, h), LineEnd(e, h + 1);
      var mc, loader := e[start..h], e[h + 1..end];
      assert OnOneLine(e) ==> start == 0 && end == |e|;
      assert e[start..end] == mc + "-" + loader;
      Some(Split(mc, loader))
  }

  /** Wherever it sits in the entry, the matched text is `mc-loader`
      verbatim. */
  lemma SplitIsInfix(e: string)
    requires SplitEntry(e).Some?
    ensures exists k: nat, m: nat ::
      k <= m <= |e| && e[k..m] == SplitEntry(e).value.minecraft + "-" + SplitEntry(e).value.loader
  {
    var h := IndexOf(e, '-');
    var start, end := LineStart(e, h), LineEnd(e, h + 1);
    assert e[start..end] == e[start..h] + "-" + e[h + 1..end];
  }

  /** Joining one-line parts with a hyphen stays on one line. */
  lemma JoinOnOneLine(mc: string, loader: string)
    requires OnOneLine(mc) && OnOneLine(loader)
    ensures OnOneLine(mc + "-" + loader)
  {
    var e := mc + "-" + loader;
    forall i | 0 <= i < |e| ensures !IsLineTerminator(e[i]) {
      if i < |mc| { assert e[i] == mc[i]; }
      else if i > |mc| { assert e[i] == loader[i - |mc| - 1]; }
    }
  }

  /** The first hyphen of the joined entry is the joining one. */
  lemma JoinHyphen(mc: string, loader: string)
    requires '-' !in mc
    ensures IndexOf(mc + "-" + loader, '-') == |mc|
  {
    var e := mc + "-" + loader;
    assert e[|mc|] == '-';
    assert forall j :: 0 <= j < |mc| ==> e[j] == mc[j];
  }

  /** Joining two one-line parts with a hyphen, the first part hyphen-free,
      gives an entry that splits back into exactly those parts. */
  lemma {:induction false} JoinThenSplit(mc: string, loader: string)
    requires '-' !in mc && OnOneLine(mc) && OnOneLine(loader)
    ensures SplitEntry(mc + "-" + loader) == Some(Split(mc, loader))
  {
    var e := mc + "-" + loader;
    JoinHyphen(mc, loader);
    JoinOnOneLine(mc, loader);
    assert e[..|mc|] == mc && e[|mc| + 1..] == loader;
  }

  predicate Matches(e: string) {
    SplitEntry(e).Some?
  }

  /** Group 1 of a matching entry. */
  function MinecraftPart(e: string): string {
    match SplitEntry(e)
    case Some(p) => p.minecraft
    case None => ""
  }

  /** Group 2 of a matching entry. */
  function LoaderPart(e: string): string {
    match SplitEntry(e)
    case Some(p) => p.loader
    case None => ""
  }

  predicate IsFor(e: string, mc: string) {
    SplitEntry(e).Some? && SplitEntry(e).value.minecraft == mc
  }

  /** `getMinecraftVersions`: the distinct group-1 values of the matching
      entries, in order of first appearance. */
  function MinecraftVersions(raw: seq<string>): (r: seq<string>)
    ensures NoDuplicates(r)
    ensures forall v :: v in r ==> '-' !in v
    ensures forall v :: v in r <==> exists i :: 0 <= i < |raw| && IsFor(raw[i], v)
  {
    var parts := Map(Filter(raw, Matches), MinecraftPart);
    var r := Distinct(parts);
    forall v | v in r ensures '-' !in v && exists i :: 0 <= i < |raw| && IsFor(raw[i], v) {
      var k :| 0 <= k < |parts| && parts[k] == v;
      var e := Filter(raw, Matches)[k];
      assert e in raw && Matches(e);
      var i :| 0 <= i < |raw| && raw[i] == e;
      assert IsFor(raw[i], v);
    }
    forall v, i | 0 <= i < |raw| && IsFor(raw[i], v) ensures v in r {
      assert raw[i] in Filter(raw, Matches);
      var k :| 0 <= k < |Filter(raw, Matches)| && Filter(raw, Matches)[k] == raw[i];
      assert parts[k] == v;
    }
    r
  }

  /** `getLoaderVersions(mc, _)`: group 2 of every entry whose group 1 is
      exactly `mc`, in list order, duplicates kept. */
  function LoaderVersions(raw: seq<string>, mc: string): (r: seq<string>)
    ensures |r| <= |raw|
    ensures forall l :: l in r ==> exists i :: 0 <= i < |raw| && SplitEntry(raw[i]) == Some(Split(mc, l))
    ensures forall l, i :: 0 <= i < |raw| && SplitEntry(raw[i]) == Some(Split(mc, l)) ==> l in r
  {
    var kept := Filter(raw, e => IsFor(e, mc));
    var r := Map(kept, LoaderPart);
    forall l | l in r ensures exists i :: 0 <= i < |raw| && SplitEntry(raw[i]) == Some(Split(mc, l)) {
      var k :| 0 <= k < |kept| && LoaderPart(kept[k]) == l;
      assert kept[k] in raw;
      var i :| 0 <= i < |raw| && raw[i] == kept[k];
      assert SplitEntry(raw[i]) == Some(Split(mc, l));
    }
    forall l, i | 0 <= i < |raw| && SplitEntry(raw[i]) == Some(Split(mc, l)) ensures l in r {
      assert raw[i] in kept;
      var k :| 0 <= k < |kept| && kept[k] == raw[i];
      assert r[k] == l;
    }
    r
  }

  /** Reconstruction: when every entry sits on one line, each loader version
      listed for `mc` rejoins with it into an entry of the raw list. */
  lemma LoaderVersionsRejoin(raw: seq<string>, mc: string, l: string)
    requires forall i :: 0 <= i < |raw| ==> OnOneLine(raw[i])
    requires l in LoaderVersions(raw, mc)
    ensures mc + "-" + l in raw
  {
    var i :| 0 <= i < |raw| && SplitEntry(raw[i]) == Some(Split(mc, l));
    assert raw[i] == mc + "-" + l;
  }

  /** The loader list grows entry by entry: an entry for `mc` appends its
      group 2 (even when it is already listed), any other entry adds nothing.
      With `LoaderVersions([], mc) == []` this fixes order and multiplicity. */
  lemma LoaderVersionsAppend(raw: seq<string>, e: string, mc: string)
    ensures LoaderVersions(raw + [e], mc) ==
      LoaderVersions(raw, mc) + (if IsFor(e, mc) then [SplitEntry(e).value.loader] else [])
  {
    FilterAppend(raw, e, e' => IsFor(e', mc));
    MapAppend(Filter(raw, e' => IsFor(e', mc)), e, LoaderPart);
  }

  /** The Minecraft list grows entry by entry: a matching entry whose group 1
      is new appends it, anything else adds nothing. */
  lemma MinecraftVersionsAppend(raw: seq<string>, e: string)
    ensures MinecraftVersions(raw + [e]) ==
      if Matches(e) && MinecraftPart(e) !in MinecraftVersions(raw)
      then MinecraftVersions(raw) + [MinecraftPart(e)]
      else MinecraftVersions(raw)
  {
    var parts := Map(Filter(raw, Matches), MinecraftPart);
    FilterAppend(raw, e, Matches);
    if Matches(e) {
      MapAppend(Filter(raw, Matches), e, MinecraftPart);
      assert Map(Filter(raw + [e], Matches), MinecraftPart) == parts + [MinecraftPart(e)];
      assert (parts + [MinecraftPart(e)])[..|parts|] == parts;
    } else {
      assert Filter(raw + [e], Matches) == Filter(raw, Matches);
    }
  }

  /** `getMinecraftVersions` lists Minecraft versions in the order of their
      first appearance in the raw list. */
  lemma MinecraftVersionsFirstSeen(raw: seq<string>)
    ensures var parts := Map(Filter(raw, Matches), MinecraftPart);
      forall i, j :: 0 <= i < j < |MinecraftVersions(raw)| ==>
        IndexOf(parts, MinecraftVersions(raw)[i]) < IndexOf(parts, MinecraftVersions(raw)[j])
  {
    DistinctFirstSeenOrder(Map(Filter(raw, Matches), MinecraftPart));
  }

  /** Group 1 found by one left-to-right scan that remembers where the
      current line began: at the first hyphen, the text from that line start
      up to the hyphen. */
  function ScanGroupOne(e: string, i: nat, start: nat): Option<string>
    requires start <= i <= |e|
    decreases |e| - i
  {
    if i == |e| then None
    else if e[i] == '-' then Some(e[start..i])
    else if IsLineTerminator(e[i]) then ScanGroupOne(e, i + 1, i + 1)
    else ScanGroupOne(e, i + 1, start)
  }

  function GroupOne(e: string): Option<string> {
    ScanGroupOne(e, 0, 0)
  }

  /** From any point before the first hyphen, with the right line start, the
      scan finds the line of the first hyphen. */
  lemma {:induction false} ScanFindsFirstHyphen(e: string, i: nat, start: nat)
    requires start <= i <= |e| && start == LineStart(e, i) && '-' !in e[..i]
    ensures var h := IndexOf(e, '-');
      ScanGroupOne(e, i, start) == if h < |e| then Some(e[LineStart(e, h)..h]) else None
    decreases |e| - i
  {
    assert forall j :: 0 <= j < i ==> e[..i][j] == e[j];
    if i == |e| {
      assert e[..i] == e;
    } else if e[i] != '-' {
      assert '-' !in e[..i + 1] by {
        assert e[..i + 1] == e[..i] + [e[i]];
      }
      ScanFindsFirstHyphen(e, i + 1, if IsLineTerminator(e[i]) then i + 1 else start);
    }
  }

  /** The scan agrees with the matcher: it finds a group 1 exactly when
      `find()` succeeds, and the same one. */
  lemma GroupOneMatches(e: string)
    ensures var h := IndexOf(e, '-');
      GroupOne(e) == if h < |e| then Some(e[LineStart(e, h)..h]) else None
    ensures GroupOne(e).Some? <==> Matches(e)
    ensures GroupOne(e).Some? ==> GroupOne(e).value == MinecraftPart(e)
  {
    ScanFindsFirstHyphen(e, 0, 0);
  }

  /** The list as a single pass keeps it: entry by entry, add group 1 when it
      is not listed yet. */
  function Collected(raw: seq<string>): seq<string>
  {
    if raw == [] then []
    else
      var prev := Collected(raw[..|raw| - 1]);
      var g := GroupOne(raw[|raw| - 1]);
      if g.Some? && g.value !in prev then prev + [g.value] else prev
  }

  /** The single pass computes the same list as the stream pipeline. */
  lemma {:induction false} CollectedIsMinecraftVersions(raw: seq<string>)
    ensures Collected(raw) == MinecraftVersions(raw)
  {
    if raw != [] {
      var prefix, last := raw[..|raw| - 1], raw[|raw| - 1];
      assert prefix + [last] == raw;
      var prev := Collected(prefix);
      var g := GroupOne(last);
      assert Collected(raw) == if g.Some? && g.value !in prev then prev + [g.value] else prev;
      CollectedIsMinecraftVersions(prefix);
      MinecraftVersionsAppend(prefix, last);
      GroupOneMatches(last);
    }
  }

  /** The stream pipeline of `getMinecraftVersions` as a loop: match each
      entry, keep group 1, skip it when already listed. */
  method CollectMinecraftVersions(raw: seq<string>) returns (versions: seq<string>)
    ensures versions == MinecraftVersions(raw)
  {
    versions := [];
    var i := 0;
    while i < |raw|
      invariant 0 <= i <= |raw|
      invariant versions == Collected(raw[..i])
    {
      var e := raw[i];
      var h := IndexOf(e, '-');
      GroupOneMatches(e);
      if h < |e| {
        var mc := e[LineStart(e, h)..h];
        if mc !in versions {
          versions := versions + [mc];
        }
      }
      assert raw[..i + 1][..i] == raw[..i];
      i := i + 1;
    }
    assert raw[..i] == raw;
    CollectedIsMinecraftVersions(raw);
  }

  /** Two entries for one Minecraft version followed by one for another
      list both versions once, in that order. */
  lemma {:induction false} TwoVersionsThreeEntries(a: string, b: string, c: string,
                                                  x: string, y: string)
    requires Matches(a) && Matches(b) && Matches(c)
    requires MinecraftPart(a) == x && MinecraftPart(b) == x && MinecraftPart(c) == y
    requires x != y
    ensures MinecraftVersions([a, b, c]) == [x, y]
  {
    PipelineThree(a, b, c, Matches, MinecraftPart);
  }

  /** The loader versions of two entries for `x` followed by one for another
      version are those two, in order. */
  lemma {:induction false} TwoLoadersThreeEntries(a: string, b: string, c: string,
                                                 x: string, p: string, q: string)
    requires SplitEntry(a) == Some(Split(x, p))
    requires SplitEntry(b) == Some(Split(x, q))
    requires !IsFor(c, x)
    ensures LoaderVersions([a, b, c], x) == [p, q]
  {
    FilterThree(a, b, c, e => IsFor(e, x));
    assert Map([a, b], LoaderPart) == [p, q];
  }

  /** The worked example with Forge's own version strings. */
  lemma Example()
    ensures MinecraftVersions(["1.20.1-47.0.1", "1.20.1-47.1.0", "1.19.2-43.2.0"]) == ["1.20.1", "1.19.2"]
    ensures LoaderVersions(["1.20.1-47.0.1", "1.20.1-47.1.0", "1.19.2-43.2.0"], "1.20.1") == ["47.0.1", "47.1.0"]
  {
    ExampleSplit1();
    ExampleSplit2();
    ExampleSplit3();
    TwoVersionsThreeEntries("1.20.1-47.0.1", "1.20.1-47.1.0", "1.19.2-43.2.0", "1.20.1", "1.19.2");
    TwoLoadersThreeEntries("1.20.1-47.0.1", "1.20.1-47.1.0", "1.19.2-43.2.0", "1.20.1", "47.0.1", "47.1.0");
  }

  lemma ExampleSplit1()
    ensures SplitEntry("1.20.1-47.0.1") == Some(Split("1.20.1", "47.0.1"))
  {
    assert '-' !in "1.20.1" && OnOneLine("1.20.1") && OnOneLine("47.0.1");
    assert "1.20.1" + "-" + "47.0.1" == "1.20.1-47.0.1";
    JoinThenSplit("1.20.1", "47.0.1");
  }

  lemma ExampleSplit2()
    ensures SplitEntry("1.20.1-47.1.0") == Some(Split("1.20.1", "47.1.0"))
  {
    assert '-' !in "1.20.1" && OnOneLine("1.20.1") && OnOneLine("47.1.0");
    assert "1.20.1" + "-" + "47.1.0" == "1.20.1-47.1.0";
    JoinThenSplit("1.20.1", "47.1.0");
  }

  lemma ExampleSplit3()
    ensures SplitEntry("1.19.2-43.2.0") == Some(Split("1.19.2", "43.2.0"))
  {
    assert '-' !in "1.19.2" && OnOneLine("1.19.2") && OnOneLine("43.2.0");
    assert "1.19.2" + "-" + "43.2.0" == "1.19.2-43.2.0";
    JoinThenSplit("1.19.2", "43.2.0");
  }
}
