/** `src/utils/ids.ts`: the deterministic detection id, six fields joined by
    `_`. How JavaScript prints a number (`String(n)`) is a parameter `show`;
    what the model relies on is that a printed number contains no `_`. */
module Ids {
  import opened Common

  /** `parts.join(sep)`. */
  function Join(parts: seq<string>, sep: char): string
    decreases |parts|
  {
    if |parts| == 0 then ""
    else if |parts| == 1 then parts[0]
    else Join(parts[..|parts| - 1], sep) + [sep] + parts[|parts| - 1]
  }

  /** A joined list of two or more parts starts with the first part and a separator. */
  lemma {:induction false} JoinStartsWithHead(parts: seq<string>, sep: char)
    requires |parts| >= 2
    ensures IsPrefix(parts[0] + [sep], Join(parts, sep))
    decreases |parts|
  {
    var n := |parts|;
    var init := parts[..n - 1];
    if n > 2 {
      JoinStartsWithHead(init, sep);
      var j := Join(init, sep);
      assert Join(parts, sep) == j + ([sep] + parts[n - 1]);
      assert Join(parts, sep)[..|parts[0]| + 1] == j[..|parts[0]| + 1];
    } else {
      assert Join(init, sep) == parts[0];
    }
  }

  /** The text of the optional score: `score ?? ''`, printed. */
  function ScoreText(show: real -> string, score: Option<real>): string {
    match score
    case Some(s) => show(s)
    case None => ""
  }

  /** `makeDetectionId`: pano id, the four box edges and the score (empty
      when absent), joined by `_`. */
  function MakeDetectionId(show: real -> string, panoId: string, xmin: real, ymin: real, xmax: real, ymax: real,
                           score: Option<real>): (id: string)
    ensures IsPrefix(panoId + "_", id)
    ensures score.None? ==> |id| > 0 && id[|id| - 1] == '_'
  {
    var parts := [panoId, show(xmin), show(ymin), show(xmax), show(ymax), ScoreText(show, score)];
    JoinStartsWithHead(parts, '_');
    assert Join(parts, '_') == Join(parts[..5], '_') + ['_'] + parts[5];
    Join(parts, '_')
  }

  /** `s` cut at its last `sep`: what comes before and what comes after. */
  function SplitLast(s: string, sep: char): (r: Option<(string, string)>)
    ensures r.None? <==> sep !in s
    ensures r.Some? ==> s == r.value.0 + [sep] + r.value.1 && sep !in r.value.1
    decreases |s|
  {
    if |s| == 0 then None
    else if s[|s| - 1] == sep then
      assert s == s[..|s| - 1] + [sep] + "";
      Some((s[..|s| - 1], ""))
    else
      var last := s[|s| - 1];
      assert s == s[..|s| - 1] + [last];
      match SplitLast(s[..|s| - 1], sep)
      case None => None
      case Some(cut) =>
        assert s == cut.0 + [sep] + (cut.1 + [last]);
        Some((cut.0, cut.1 + [last]))
  }

  /** Cutting at the last separator undoes appending a field free of separators. */
  lemma {:induction false} SplitLastAppend(a: string, b: string, sep: char)
    requires sep !in b
    ensures SplitLast(a + [sep] + b, sep) == Some((a, b))
    decreases |b|
  {
    var s := a + [sep] + b;
    if |b| > 0 {
      var b' := b[..|b| - 1];
      assert s[..|s| - 1] == a + [sep] + b';
      assert b' + [b[|b| - 1]] == b;
      SplitLastAppend(a, b', sep);
    } else {
      assert s[..|s| - 1] == a;
    }
  }

  /** Peel `n` fields off the right of `s`: the remaining head and the fields in order. */
  function PeelFields(s: string, n: nat, sep: char): (r: Option<(string, seq<string>)>)
    ensures r.Some? ==> |r.value.1| == n
    decreases n
  {
    if n == 0 then Some((s, []))
    else
      match SplitLast(s, sep)
      case None => None
      case Some(cut) =>
        match PeelFields(cut.0, n - 1, sep)
        case None => None
        case Some(p) => Some((p.0, p.1 + [cut.1]))
  }

  /** Reading a detection id back: the pano id (which may itself contain
      `_`) and the five printed fields. */
  function ParseDetectionId(id: string): (r: Option<(string, seq<string>)>)
    ensures r.Some? ==> |r.value.1| == 5
  {
    PeelFields(id, 5, '_')
  }

  /** Peeling undoes joining when no part after the first contains the separator. */
  lemma {:induction false} PeelJoin(parts: seq<string>, n: nat, sep: char)
    requires |parts| == n + 1
    requires forall i :: 1 <= i < |parts| ==> sep !in parts[i]
    ensures PeelFields(Join(parts, sep), n, sep) == Some((parts[0], parts[1..]))
    decreases n
  {
    if n > 0 {
      var init := parts[..n];
      assert Join(parts, sep) == Join(init, sep) + [sep] + parts[n];
      SplitLastAppend(Join(init, sep), parts[n], sep);
      PeelJoin(init, n - 1, sep);
      assert init[1..] + [parts[n]] == parts[1..];
    }
  }

  /** The detection id determines the pano id and the five printed fields:
      printed numbers contain no `_`, so the fields are read back from the
      right, whatever the pano id contains. */
  lemma DetectionIdRoundTrip(show: real -> string, panoId: string, xmin: real, ymin: real, xmax: real, ymax: real,
                             score: Option<real>)
    requires '_' !in show(xmin) && '_' !in show(ymin) && '_' !in show(xmax) && '_' !in show(ymax)
    requires '_' !in ScoreText(show, score)
    ensures ParseDetectionId(MakeDetectionId(show, panoId, xmin, ymin, xmax, ymax, score))
            == Some((panoId, [show(xmin), show(ymin), show(xmax), show(ymax), ScoreText(show, score)]))
  {
    var parts := [panoId, show(xmin), show(ymin), show(xmax), show(ymax), ScoreText(show, score)];
    PeelJoin(parts, 5, '_');
  }
}
