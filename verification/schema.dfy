/** `src/data/schema.ts`: the columns each CSV must have and the check that
    reports which are missing. Header names are compared after trimming and
    lower-casing; a column is also satisfied by any of its aliases. */
module Schema {
  import opened Common
  import opened OrderedMap

  const BoxColumns: seq<string> := ["pano_id", "xmin", "ymin", "xmax", "ymax"]
  const MetaColumns: seq<string> := ["pano_id", "lat", "lon", "heading", "imageWidth", "imageHeight"]
  const ProjectColumns: seq<string> := ["row_type", "object_id", "pano_id"]

  /** `META_ALIASES`: the other spellings accepted for metadata columns. */
  const MetaAliases: OMap<string, seq<string>> := [
    ("lat", ["latitude"]),
    ("lon", ["lng", "longitude"]),
    ("imageWidth", ["image_width", "imagewidth"]),
    ("imageHeight", ["image_height", "imageheight"])]

  /** The characters `String.prototype.trim` removes: white space and line
      terminators. */
  predicate IsJsSpace(c: char) {
    var n := c as int;
    || n == 0x09 || n == 0x0A || n == 0x0B || n == 0x0C || n == 0x0D || n == 0x20
    || n == 0xA0 || n == 0x1680 || (0x2000 <= n <= 0x200A) || n == 0x2028 || n == 0x2029
    || n == 0x202F || n == 0x205F || n == 0x3000 || n == 0xFEFF
  }

  /** Drop leading white space. */
  function TrimStart(s: string): (r: string)
    ensures |r| <= |s| && r == s[|s| - |r|..]
    ensures forall i :: 0 <= i < |s| - |r| ==> IsJsSpace(s[i])
    ensures |r| > 0 ==> !IsJsSpace(r[0])
    decreases |s|
  {
    if |s| > 0 && IsJsSpace(s[0]) then
      var r := TrimStart(s[1..]);
      assert forall i :: 1 <= i < |s| ==> s[1..][i - 1] == s[i];
      r
    else s
  }

  /** Drop trailing white space. */
  function TrimEnd(s: string): (r: string)
    ensures |r| <= |s| && r == s[..|r|]
    ensures forall i :: |r| <= i < |s| ==> IsJsSpace(s[i])
    ensures |r| > 0 ==> !IsJsSpace(r[|r| - 1])
    decreases |s|
  {
    if |s| > 0 && IsJsSpace(s[|s| - 1]) then
      var r := TrimEnd(s[..|s| - 1]);
      assert forall i :: 0 <= i < |s| - 1 ==> s[..|s| - 1][i] == s[i];
      r
    else s
  }

  /** `s.trim()`. */
  function Trim(s: string): (r: string)
    ensures |r| > 0 ==> !IsJsSpace(r[0]) && !IsJsSpace(r[|r| - 1])
  {
    TrimEnd(TrimStart(s))
  }

  /** The trimmed text is the slice `s[i..j]` with only white space outside it. */
  lemma TrimIsSlice(s: string) returns (i: nat, j: nat)
    ensures i <= j <= |s| && Trim(s) == s[i..j]
    ensures forall k :: 0 <= k < i ==> IsJsSpace(s[k])
    ensures forall k :: j <= k < |s| ==> IsJsSpace(s[k])
  {
    var t := TrimStart(s);
    var r := TrimEnd(t);
    i := |s| - |t|;
    j := i + |r|;
    assert r == t[..|r|];
    assert forall k :: j <= k < |s| ==> s[k] == t[k - i];
  }

  /** `toLowerCase` on one character; only `A`..`Z` are mapped. */
  function LowerChar(c: char): char {
    if 'A' <= c <= 'Z' then (c as int + 32) as char else c
  }

  /** `s.toLowerCase()`, character by character. */
  function Lower(s: string): (r: string)
    ensures |r| == |s|
    ensures forall i :: 0 <= i < |s| ==> r[i] == LowerChar(s[i])
  {
    seq(|s|, i requires 0 <= i < |s| => LowerChar(s[i]))
  }

  /** Text without capitals is its own lower case. */
  lemma LowerOfLower(s: string)
    requires forall i :: 0 <= i < |s| ==> !('A' <= s[i] <= 'Z')
    ensures Lower(s) == s
  {
  }

  /** A found header as compared: trimmed, then lower-cased. */
  function Normalize(header: string): string {
    Lower(Trim(header))
  }

  /** `new Set(found.map((c) => c.trim().toLowerCase()))`. */
  function FoundSet(found: seq<string>): (s: set<string>)
    ensures forall h :: h in found ==> Normalize(h) in s
    ensures forall x :: x in s ==> exists h :: h in found && x == Normalize(h)
  {
    set h | h in found :: Normalize(h)
  }

  /** `[col, ...(aliases[col] ?? [])]`, lower-cased (not trimmed). */
  function Candidates(col: string, aliases: OMap<string, seq<string>>): (cs: seq<string>)
    ensures |cs| >= 1 && cs[0] == Lower(col)
    ensures var aka := Get(aliases, col).GetOr([]);
            |cs| == 1 + |aka| && forall i :: 0 <= i < |aka| ==> cs[i + 1] == Lower(aka[i])
  {
    var names := [col] + Get(aliases, col).GetOr([]);
    seq(|names|, i requires 0 <= i < |names| => Lower(names[i]))
  }

  /** No spelling of `col` is among the found headers. */
  predicate Missing(col: string, foundSet: set<string>, aliases: OMap<string, seq<string>>) {
    forall c :: c in Candidates(col, aliases) ==> c !in foundSet
  }

  /** `candidates.some((c) => foundSet.has(c))`, as a scan. */
  function AnyFound(cs: seq<string>, foundSet: set<string>): (b: bool)
    ensures b <==> exists c :: c in cs && c in foundSet
    decreases |cs|
  {
    if |cs| == 0 then false
    else if cs[0] in foundSet then true
    else
      assert forall c :: c in cs ==> c == cs[0] || c in cs[1..];
      AnyFound(cs[1..], foundSet)
  }

  /** The `expected.filter(...)` of `validateColumns` over a fixed found set. */
  function MissingOf(expected: seq<string>, foundSet: set<string>, aliases: OMap<string, seq<string>>): (r: seq<string>)
    ensures IsSubseq(r, expected)
    ensures forall col :: col in r <==> col in expected && Missing(col, foundSet, aliases)
    decreases |expected|
  {
    if |expected| == 0 then []
    else
      var rest := MissingOf(expected[1..], foundSet, aliases);
      assert forall col :: col in expected <==> col == expected[0] || col in expected[1..];
      if !AnyFound(Candidates(expected[0], aliases), foundSet) then
        var r := [expected[0]] + rest;
        assert r[1..] == rest;
        r
      else
        SubseqSkip(rest, expected);
        rest
  }

  /** A subsequence of the tail is a subsequence of the whole. */
  lemma SubseqSkip<T>(a: seq<T>, b: seq<T>)
    requires |b| > 0 && IsSubseq(a, b[1..])
    ensures IsSubseq(a, b)
  {
  }

  /** `validateColumns`: the expected columns, in their order, that no
      found header satisfies under any spelling. */
  function ValidateColumns(found: seq<string>, expected: seq<string>, aliases: OMap<string, seq<string>>): (missing: seq<string>)
    ensures IsSubseq(missing, expected)
    ensures forall col :: col in missing <==> col in expected && Missing(col, FoundSet(found), aliases)
  {
    MissingOf(expected, FoundSet(found), aliases)
  }

  /** With nothing expected nothing is missing. */
  lemma NothingExpected(found: seq<string>, aliases: OMap<string, seq<string>>)
    ensures ValidateColumns(found, [], aliases) == []
  {
    SubseqElements(ValidateColumns(found, [], aliases), []);
  }

  /** More found headers never make a column missing: the result for the
      larger set is a subsequence of the result for the smaller one. */
  lemma {:induction false} MissingOfMonotone(expected: seq<string>, small: set<string>, large: set<string>,
                                             aliases: OMap<string, seq<string>>)
    requires small <= large
    ensures IsSubseq(MissingOf(expected, large, aliases), MissingOf(expected, small, aliases))
    decreases |expected|
  {
    if |expected| > 0 {
      MissingOfMonotone(expected[1..], small, large, aliases);
      var a := MissingOf(expected[1..], large, aliases);
      var b := MissingOf(expected[1..], small, aliases);
      var cs := Candidates(expected[0], aliases);
      if !AnyFound(cs, large) {
        assert !AnyFound(cs, small);
        assert ([expected[0]] + a)[1..] == a;
        assert ([expected[0]] + b)[1..] == b;
      } else if !AnyFound(cs, small) {
        assert ([expected[0]] + b)[1..] == b;
        SubseqSkip(a, [expected[0]] + b);
      }
    }
  }

  lemma ValidateColumnsMonotone(found: seq<string>, more: seq<string>, expected: seq<string>,
                                aliases: OMap<string, seq<string>>)
    ensures IsSubseq(ValidateColumns(found + more, expected, aliases), ValidateColumns(found, expected, aliases))
  {
    assert FoundSet(found) <= FoundSet(found + more);
    MissingOfMonotone(expected, FoundSet(found), FoundSet(found + more), aliases);
  }

  /** A found header whose normal form is one of a column's spellings
      satisfies that column. */
  lemma SpellingSatisfies(found: seq<string>, expected: seq<string>, aliases: OMap<string, seq<string>>,
                          col: string, h: string)
    requires h in found && Normalize(h) in Candidates(col, aliases)
    ensures col !in ValidateColumns(found, expected, aliases)
  {
    assert Normalize(h) in FoundSet(found);
  }

  /** The spellings of `lon`: itself, `lng` and `longitude`. */
  lemma LonCandidates()
    ensures Candidates("lon", MetaAliases) == ["lon", "lng", "longitude"]
  {
    assert Get(MetaAliases, "lon") == Some(["lng", "longitude"]) by {
      assert MetaAliases[1] == ("lon", ["lng", "longitude"]);
      GetEntry(MetaAliases, "lon");
    }
    LowerOfLower("lon");
    LowerOfLower("lng");
    LowerOfLower("longitude");
  }

  /** A header reading `longitude` or `lng` (in any case, with surrounding
      white space) satisfies the metadata column `lon`. */
  lemma LonAliases(found: seq<string>, h: string)
    requires h in found && Normalize(h) in {"lng", "longitude"}
    ensures "lon" !in ValidateColumns(found, MetaColumns, MetaAliases)
  {
    LonCandidates();
    SpellingSatisfies(found, MetaColumns, MetaAliases, "lon", h);
  }

  /** The spellings of `imageWidth`. */
  lemma ImageWidthCandidates()
    ensures Candidates("imageWidth", MetaAliases) == ["imagewidth", "image_width", "imagewidth"]
  {
    assert Get(MetaAliases, "imageWidth") == Some(["image_width", "imagewidth"]) by {
      assert MetaAliases[2] == ("imageWidth", ["image_width", "imagewidth"]);
      GetEntry(MetaAliases, "imageWidth");
    }
    assert Lower("imageWidth") == "imagewidth";
    LowerOfLower("image_width");
    LowerOfLower("imagewidth");
  }

  /** A header reading `image_width` satisfies the metadata column `imageWidth`. */
  lemma ImageWidthAlias(found: seq<string>, h: string)
    requires h in found && Normalize(h) == "image_width"
    ensures "imageWidth" !in ValidateColumns(found, MetaColumns, MetaAliases)
  {
    ImageWidthCandidates();
    SpellingSatisfies(found, MetaColumns, MetaAliases, "imageWidth", h);
  }
}
