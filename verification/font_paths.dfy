/** How a run names its files: the cache path of every fetched format, the archive entry name of that
    file, and the path of the zip archive itself. */
module FontPaths {
  import opened FontTypes

  /** The path separator used by `path.join` and `path.basename`. */
  const Separator: char := '/'

  /** The separator `Array.prototype.join` puts between subset names. */
  const SubsetSeparator: char := '_'

  /** `Array.prototype.join(sep)`: the parts with `sep` between neighbours ("" for no parts). */
  function Join(parts: seq<string>, sep: string): (r: string)
    ensures |parts| > 0 ==> |parts[0]| <= |r| && |parts[|parts| - 1]| <= |r|
  {
    if |parts| == 0 then ""
    else if |parts| == 1 then parts[0]
    else parts[0] + sep + Join(parts[1..], sep)
  }

  /** A join starts with the first part and ends with the last. */
  lemma {:induction false} JoinEnds(parts: seq<string>, sep: string)
    requires |parts| > 0
    ensures var r := Join(parts, sep); r[..|parts[0]|] == parts[0] && r[|r| - |parts[|parts| - 1]|..] == parts[|parts| - 1]
  {
    if |parts| > 1 {
      JoinEnds(parts[1..], sep);
      var rest := Join(parts[1..], sep);
      var r := parts[0] + sep + rest;
      assert r[|r| - |rest|..] == rest;
    }
  }

  /** Cuts `s` at every occurrence of `c`; the reference inverse of `Join`. */
  function Split(s: string, c: char): (r: seq<string>)
    ensures |r| > 0
    ensures forall p :: p in r ==> c !in p
  {
    if |s| == 0 then [""]
    else
      var rest := Split(s[1..], c);
      if s[0] == c then [""] + rest
      else [[s[0]] + rest[0]] + rest[1..]
  }

  /** A character that is in neither the parts nor the separator is not in their join. */
  lemma {:induction false} JoinFreeOf(parts: seq<string>, sep: string, c: char)
    requires c !in sep
    requires forall p :: p in parts ==> c !in p
    ensures c !in Join(parts, sep)
  {
    if |parts| > 1 {
      assert parts[0] in parts;
      assert forall p :: p in parts[1..] ==> p in parts;
      JoinFreeOf(parts[1..], sep, c);
    } else if |parts| == 1 {
      assert parts[0] in parts;
    }
  }

  lemma {:induction false} SplitFree(p: string, c: char)
    requires c !in p
    ensures Split(p, c) == [p]
    decreases |p|
  {
    if |p| > 0 {
      SplitFree(p[1..], c);
      assert [p[0]] + p[1..] == p;
    }
  }

  lemma {:induction false} SplitAfterPart(p: string, c: char, rest: string)
    requires c !in p
    ensures Split(p + [c] + rest, c) == [p] + Split(rest, c)
    decreases |p|
  {
    if |p| == 0 {
      assert (p + [c] + rest)[1..] == rest;
    } else {
      assert (p + [c] + rest)[1..] == p[1..] + [c] + rest;
      SplitAfterPart(p[1..], c, rest);
      assert [p[0]] + p[1..] == p;
    }
  }

  /** Joining with a one-character separator that no part contains loses nothing: `Split` recovers the parts. */
  lemma {:induction false} SplitJoin(parts: seq<string>, c: char)
    requires |parts| > 0
    requires forall p :: p in parts ==> c !in p
    ensures Split(Join(parts, [c]), c) == parts
  {
    assert parts[0] in parts;
    if |parts| == 1 {
      SplitFree(parts[0], c);
    } else {
      assert forall p :: p in parts[1..] ==> p in parts;
      SplitJoin(parts[1..], c);
      SplitAfterPart(parts[0], c, Join(parts[1..], [c]));
      assert [parts[0]] + parts[1..] == parts;
    }
  }

  /** Two non-empty subset lists without '_' in any name have the same signature only if they are equal. */
  lemma SubsetSignatureInjective(a: seq<string>, b: seq<string>)
    requires |a| > 0 && |b| > 0
    requires forall p :: p in a ==> SubsetSeparator !in p
    requires forall p :: p in b ==> SubsetSeparator !in p
    requires Join(a, [SubsetSeparator]) == Join(b, [SubsetSeparator])
    ensures a == b
  {
    SplitJoin(a, SubsetSeparator);
    SplitJoin(b, SubsetSeparator);
  }

  /** `path.join(dir, "/" + name)`, without normalisation: `dir`, one separator, then `name`. */
  function PathJoin(dir: string, name: string): (r: string)
    ensures |r| == |dir| + 1 + |name|
  {
    dir + [Separator] + name
  }

  /** Drops the separators at the end of `p`. */
  function TrimTrailingSeparators(p: string): (r: string)
    ensures |r| <= |p| && r == p[..|r|]
    ensures |r| == 0 || r[|r| - 1] != Separator
  {
    if |p| > 0 && p[|p| - 1] == Separator then TrimTrailingSeparators(p[..|p| - 1]) else p
  }

  /** What follows the last separator of `p` (all of `p` when it has none). */
  function LastComponent(p: string): (r: string)
    ensures Separator !in r
    ensures |r| <= |p|
  {
    if |p| == 0 || p[|p| - 1] == Separator then ""
    else LastComponent(p[..|p| - 1]) + [p[|p| - 1]]
  }

  /** `path.basename(p)`: trailing separators removed, then what follows the last separator. */
  function Basename(p: string): (r: string)
    ensures Separator !in r
  {
    LastComponent(TrimTrailingSeparators(p))
  }

  /** Trimming drops separators only, and only from the end of the path. */
  lemma {:induction false} TrimDropsOnlySeparators(p: string)
    ensures forall k :: |TrimTrailingSeparators(p)| <= k < |p| ==> p[k] == Separator
    decreases |p|
  {
    if |p| > 0 && p[|p| - 1] == Separator {
      TrimDropsOnlySeparators(p[..|p| - 1]);
    }
  }

  /** The last component is the text after the last separator of the path: a suffix of the path
      that is either all of it or is preceded by a separator. */
  lemma {:induction false} LastComponentFollowsSeparator(p: string)
    ensures var r := LastComponent(p);
            r == p[|p| - |r|..] && (|r| == |p| || p[|p| - |r| - 1] == Separator)
    decreases |p|
  {
    if |p| > 0 && p[|p| - 1] != Separator {
      var init := p[..|p| - 1];
      LastComponentFollowsSeparator(init);
      var r0 := LastComponent(init);
      assert LastComponent(p) == r0 + [p[|p| - 1]];
      assert p[|p| - |r0| - 1..] == init[|init| - |r0|..] + [p[|p| - 1]];
    }
  }

  lemma {:induction false} LastComponentOfJoin(dir: string, name: string)
    requires Separator !in name
    ensures LastComponent(PathJoin(dir, name)) == name
    decreases |name|
  {
    var p := PathJoin(dir, name);
    if |name| == 0 {
      assert p[|p| - 1] == Separator;
    } else {
      var last := name[|name| - 1];
      var name' := name[..|name| - 1];
      assert last in name;
      assert p[|p| - 1] == last != Separator;
      assert p[..|p| - 1] == PathJoin(dir, name');
      assert LastComponent(p) == LastComponent(PathJoin(dir, name')) + [last];
      LastComponentOfJoin(dir, name');
      assert name' + [last] == name;
    }
  }

  /** The base name of a file joined onto a directory is the file's own name, provided that name is
      non-empty and holds no separator. */
  lemma BasenameOfJoin(dir: string, name: string)
    requires |name| > 0 && Separator !in name
    ensures Basename(PathJoin(dir, name)) == name
  {
    var p := PathJoin(dir, name);
    assert p[|p| - 1] == name[|name| - 1];
    assert name[|name| - 1] in name;
    assert TrimTrailingSeparators(p) == p;
    LastComponentOfJoin(dir, name);
  }

  /** The name of the cache file of one format of one variant:
      `<fontID>-<fontVersion>-<subsets joined by "_">-<variant id>.<format>`. */
  function FontFileName(req: FontRequest, variantId: string, format: string): (r: string)
    ensures |r| > |format| && r[|r| - |format| - 1] == '.' && r[|r| - |format|..] == format
  {
    req.fontID + "-" + req.fontVersion + "-" + Join(req.subsets, [SubsetSeparator]) + "-" + variantId + "." + format
  }

  /** The cache path of one format of one variant: in the cache directory, with the format as its
      extension. */
  function CachedFontPath(req: FontRequest, variantId: string, format: string): (r: string)
    ensures |r| > |req.cacheDir| + 1 + |format|
  {
    PathJoin(req.cacheDir, FontFileName(req, variantId, format))
  }

  /** A cache path lies directly in the cache directory and carries its format as its extension. */
  lemma CachedFontPathShape(req: FontRequest, variantId: string, format: string)
    ensures var r := CachedFontPath(req, variantId, format);
            && r[..|req.cacheDir|] == req.cacheDir && r[|req.cacheDir|] == Separator
            && r[|r| - |format| - 1] == '.' && r[|r| - |format|..] == format
  {
    var name := FontFileName(req, variantId, format);
    var r := CachedFontPath(req, variantId, format);
    assert r == req.cacheDir + [Separator] + name;
    assert r[|r| - |name|..] == name;
    assert r[|r| - |format|..] == name[|name| - |format|..];
  }

  /** None of the strings that make up a cache file name holds a path separator. */
  predicate NoSeparatorIn(req: FontRequest, variantId: string, format: string)
  {
    && Separator !in req.fontID
    && Separator !in req.fontVersion
    && (forall s :: s in req.subsets ==> Separator !in s)
    && Separator !in variantId
    && Separator !in format
  }

  /** The archive entry name of a fetched file, `path.basename` of its cache path, is the file name
      itself whenever no component holds a separator. */
  lemma EntryNameIsFileName(req: FontRequest, variantId: string, format: string)
    requires NoSeparatorIn(req, variantId, format)
    ensures Basename(CachedFontPath(req, variantId, format)) == FontFileName(req, variantId, format)
  {
    JoinFreeOf(req.subsets, [SubsetSeparator], Separator);
    BasenameOfJoin(req.cacheDir, FontFileName(req, variantId, format));
  }

  /** Within one variant, distinct formats get distinct cache paths; for one format, distinct
      variants do. */
  lemma CachedFontPathInjective(req: FontRequest, id1: string, f1: string, id2: string, f2: string)
    requires CachedFontPath(req, id1, f1) == CachedFontPath(req, id2, f2)
    requires id1 == id2 || f1 == f2
    ensures id1 == id2 && f1 == f2
  {
    var prefix := PathJoin(req.cacheDir, req.fontID + "-" + req.fontVersion + "-" + Join(req.subsets, [SubsetSeparator]) + "-");
    CachedFontPathParts(req, id1, f1);
    CachedFontPathParts(req, id2, f2);
    if f1 == f2 {
      MiddleCancel(prefix, id1, id2, "." + f1);
    } else {
      MiddleCancel(prefix + id1 + ".", f1, f2, "");
    }
  }

  /** A cache path cut into the parts the injectivity proofs cancel. */
  lemma CachedFontPathParts(req: FontRequest, id: string, f: string)
    ensures var prefix := PathJoin(req.cacheDir, req.fontID + "-" + req.fontVersion + "-" + Join(req.subsets, [SubsetSeparator]) + "-");
            && CachedFontPath(req, id, f) == prefix + id + ("." + f)
            // the same cut, with an empty suffix, in the `a + x + b` shape `MiddleCancel` cancels
            && CachedFontPath(req, id, f) == prefix + id + "." + f + ""
    ensures CachedFontPath(req, id, f)
              == PathJoin(req.cacheDir, req.fontID + "-" + req.fontVersion + "-") + Join(req.subsets, [SubsetSeparator]) + ("-" + id + "." + f)
  {
  }

  /** Equal strings with the same prefix and the same suffix have the same middle. */
  lemma MiddleCancel(a: string, x: string, y: string, b: string)
    requires a + x + b == a + y + b
    ensures x == y
  {
    var w := a + x + b;
    assert |x| == |y|;
    assert x == w[|a|..|a| + |x|] == (a + y + b)[|a|..|a| + |y|] == y;
  }

  /** Two requests that differ only in their subsets, both non-empty and without '_' in any name,
      give every (variant, format) pair different cache paths. */
  lemma SubsetsDistinguishCachePaths(req: FontRequest, subsets: seq<string>, variantId: string, format: string)
    requires |req.subsets| > 0 && |subsets| > 0
    requires forall p :: p in req.subsets ==> SubsetSeparator !in p
    requires forall p :: p in subsets ==> SubsetSeparator !in p
    requires CachedFontPath(req, variantId, format) == CachedFontPath(req.(subsets := subsets), variantId, format)
    ensures req.subsets == subsets
  {
    var prefix := PathJoin(req.cacheDir, req.fontID + "-" + req.fontVersion + "-");
    var suffix := "-" + variantId + "." + format;
    CachedFontPathParts(req, variantId, format);
    CachedFontPathParts(req.(subsets := subsets), variantId, format);
    MiddleCancel(prefix, Join(req.subsets, [SubsetSeparator]), Join(subsets, [SubsetSeparator]), suffix);
    SubsetSignatureInjective(req.subsets, subsets);
  }

  /** The subset part of the zip name: the first variant's subsets joined by "_", or "undefined" when
      there is no variant (the template literal of `_.first([])?.subsets.join("_")`). */
  function SubsetSignature(variants: seq<Variant>): (r: string)
    ensures |variants| == 0 ==> r == "undefined"
    ensures |variants| > 0 && (forall s :: s in variants[0].subsets ==> Separator !in s) ==> Separator !in r
  {
    if |variants| == 0 then "undefined"
    else
      SubsetJoinFreeOfSeparator(variants[0].subsets);
      Join(variants[0].subsets, [SubsetSeparator])
  }

  /** Subset names without '/' join by "_" into a signature without '/'. */
  lemma SubsetJoinFreeOfSeparator(subsets: seq<string>)
    ensures (forall s :: s in subsets ==> Separator !in s) ==> Separator !in Join(subsets, [SubsetSeparator])
  {
    if forall s :: s in subsets ==> Separator !in s {
      JoinFreeOf(subsets, [SubsetSeparator], Separator);
    }
  }

  /** The path of the zip archive of a run: `<fontID>-<fontVersion>-<signature>.zip` in the cache directory. */
  function ZippedFileName(req: FontRequest, variants: seq<Variant>): (r: string)
    ensures |r| >= 4 && r[|r| - 4..] == ".zip"
    ensures |r| > |req.cacheDir| && r[..|req.cacheDir|] == req.cacheDir
  {
    PathJoin(req.cacheDir, req.fontID + "-" + req.fontVersion + "-" + SubsetSignature(variants) + ".zip")
  }

  /** The zip name depends on the first variant's subsets only: not on the requested subsets and not
      on any later variant. */
  lemma ZippedFileNameUsesFirstVariant(req: FontRequest, req': FontRequest, vs: seq<Variant>, ws: seq<Variant>)
    requires req.cacheDir == req'.cacheDir && req.fontID == req'.fontID && req.fontVersion == req'.fontVersion
    requires |vs| > 0 && |ws| > 0 && vs[0].subsets == ws[0].subsets
    ensures ZippedFileName(req, vs) == ZippedFileName(req', ws)
  {
  }

  /** With no variants at all the subset part of the zip name is the text "undefined". */
  lemma ZippedFileNameWithoutVariants(req: FontRequest)
    ensures ZippedFileName(req, []) == req.cacheDir + "/" + req.fontID + "-" + req.fontVersion + "-undefined.zip"
  {
  }
}
