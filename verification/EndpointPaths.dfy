/**
  Path strings and segment lists: internal/endpoint/normalize.go and the string
  half of internal/endpoint/resolver.go and internal/endpoint/trie.go.
 */
module EndpointPaths {
  import opened PathTrieSpec

  // ---- Splitting and joining at '/' ----

  /** strings.Split(s, sep), for a separator of one character. */
  function Split(s: string, sep: char := '/'): (parts: seq<string>)
    ensures parts != []
  {
    if s == "" then [""]
    else
      var rest := Split(s[1..], sep);
      if s[0] == sep then [""] + rest else [[s[0]] + rest[0]] + rest[1..]
  }

  /** strings.Join(parts, sep). */
  function Join(parts: seq<string>, sep: char := '/'): string {
    if parts == [] then ""
    else if |parts| == 1 then parts[0]
    else parts[0] + [sep] + Join(parts[1..], sep)
  }

  /** No part contains the separator. */
  predicate FreeOf(parts: seq<string>, sep: char := '/') {
    forall part :: part in parts ==> sep !in part
  }

  lemma {:induction false} JoinSplit(s: string, sep: char := '/')
    ensures Join(Split(s, sep), sep) == s && FreeOf(Split(s, sep), sep)
  {
    if s != "" {
      var rest := Split(s[1..], sep);
      JoinSplit(s[1..], sep);
      SplitFreeOf(s, rest, sep);
      assert s == [s[0]] + s[1..];
      if s[0] == sep {
        assert Split(s, sep)[1..] == rest;
      } else {
        JoinHead(s[0], rest, sep);
      }
    }
  }

  lemma JoinHead(c: char, rest: seq<string>, sep: char := '/')
    requires rest != []
    ensures Join([[c] + rest[0]] + rest[1..], sep) == [c] + Join(rest, sep)
  {
    var parts := [[c] + rest[0]] + rest[1..];
    if |rest| > 1 {
      assert parts[1..] == rest[1..];
      assert [c] + rest[0] + [sep] + Join(rest[1..], sep) == [c] + (rest[0] + [sep] + Join(rest[1..], sep));
    }
  }

  lemma SplitFreeOf(s: string, rest: seq<string>, sep: char := '/')
    requires s != "" && rest == Split(s[1..], sep) && FreeOf(rest, sep)
    ensures FreeOf(Split(s, sep), sep)
  {
    assert s[0] != sep ==> sep !in [s[0]] + rest[0];
  }

  lemma {:induction false} SplitLiteral(s: string)
    requires '/' !in s
    ensures Split(s) == [s]
  {
    if s != "" {
      SplitLiteral(s[1..]);
      assert [s[0]] + s[1..] == s;
    }
  }

  lemma {:induction false} SplitAtSlash(s: string, t: string)
    requires '/' !in s
    ensures Split(s + "/" + t) == [s] + Split(t)
  {
    var st := s + "/" + t;
    if s == "" {
      assert st[1..] == t;
    } else {
      SplitAtSlash(s[1..], t);
      assert st[1..] == s[1..] + "/" + t;
      assert [s[0]] + s[1..] == s;
    }
  }

  lemma {:induction false} SplitConcat(s: string, t: string)
    ensures Split(s + "/" + t) == Split(s) + Split(t)
  {
    var st := s + "/" + t;
    if s == "" {
      assert st[1..] == t;
    } else {
      SplitConcat(s[1..], t);
      assert st[1..] == s[1..] + "/" + t && st[0] == s[0];
      HeadBefore(s[0], Split(s[1..]), Split(t));
    }
  }

  lemma HeadBefore(c: char, first: seq<string>, rest: seq<string>)
    requires first != []
    ensures [""] + (first + rest) == [""] + first + rest
    ensures [[c] + (first + rest)[0]] + (first + rest)[1..] == [[c] + first[0]] + first[1..] + rest
  {
  }

  lemma {:induction false} SplitJoin(parts: seq<string>)
    requires parts != [] && FreeOf(parts)
    ensures Split(Join(parts)) == parts
  {
    if |parts| == 1 {
      SplitLiteral(parts[0]);
    } else {
      SplitAtSlash(parts[0], Join(parts[1..]));
      SplitJoin(parts[1..]);
      assert [parts[0]] + parts[1..] == parts;
    }
  }

  // ---- Segments ----

  function NonEmpty(parts: seq<string>): seq<string> {
    if parts == [] then []
    else NonEmpty(parts[..|parts| - 1]) + if parts[|parts| - 1] != "" then [parts[|parts| - 1]] else []
  }

  /** The non-empty segments of a path. */
  function Segments(path: string): Path {
    NonEmpty(Split(path))
  }

  predicate IsSegmentList(segments: Path) {
    forall s :: s in segments ==> s != "" && '/' !in s
  }

  method SplitPathSegments(path: string) returns (segments: Path)
    ensures segments == Segments(path) && IsSegmentList(segments)
  {
    segments := [];
    var parts := Split(path);
    JoinSplit(path);
    for i := 0 to |parts|
      invariant segments == NonEmpty(parts[..i])
      invariant IsSegmentList(segments)
    {
      assert parts[..i + 1][..i] == parts[..i];
      if parts[i] != "" {
        segments := segments + [parts[i]];
      }
    }
    assert parts[..|parts|] == parts;
  }

  lemma {:induction false} NonEmptyOfNonEmpty(parts: seq<string>)
    requires "" !in parts
    ensures NonEmpty(parts) == parts
  {
    if parts != [] {
      NonEmptyOfNonEmpty(parts[..|parts| - 1]);
    }
  }

  lemma {:induction false} NonEmptyAppend(a: seq<string>, b: seq<string>)
    ensures NonEmpty(a + b) == NonEmpty(a) + NonEmpty(b)
  {
    if b == [] {
      assert a + b == a;
    } else {
      var n := |b| - 1;
      NonEmptyAppend(a, b[..n]);
      assert (a + b)[..|a + b| - 1] == a + b[..n];
    }
  }

  /** A slash separates segments. */
  lemma SegmentsConcat(s: string, t: string)
    ensures Segments(s + "/" + t) == Segments(s) + Segments(t)
  {
    SplitConcat(s, t);
    NonEmptyAppend(Split(s), Split(t));
  }

  lemma NonEmptyPrepend(parts: seq<string>)
    ensures NonEmpty([""] + parts) == NonEmpty(parts)
  {
    NonEmptyAppend([""], parts);
    assert [""][..0] == [] && NonEmpty([]) == [];
  }

  /** The path string of a segment list, as the resolver writes it. */
  function PathString(segments: Path): string {
    "/" + Join(segments)
  }

  /** Writing a segment list as a path and reading it back are inverse. */
  lemma SegmentsOfPathString(segments: Path)
    requires IsSegmentList(segments)
    ensures Segments(PathString(segments)) == segments
  {
    SplitAtSlash("", Join(segments));
    assert "" + "/" + Join(segments) == PathString(segments);
    NonEmptyPrepend(Split(Join(segments)));
    if segments == [] {
      assert Split("") == [""];
      assert NonEmpty([""]) == NonEmpty([]);
    } else {
      SplitJoin(segments);
      NonEmptyOfNonEmpty(segments);
    }
  }

  lemma {:induction false} SegmentsAreClean(parts: seq<string>)
    requires FreeOf(parts)
    ensures IsSegmentList(NonEmpty(parts))
  {
    if parts != [] {
      SegmentsAreClean(parts[..|parts| - 1]);
    }
  }

  // ---- Heuristic normalisation ----

  /** What normalisation does to one segment; isParameter is an arbitrary classifier. */
  function NormalizeSegment(isParameter: string -> bool, s: string): string {
    if s == "" || s == PLACEHOLDER then s
    else if isParameter(s) then PLACEHOLDER
    else s
  }

  function NormalizeParts(isParameter: string -> bool, parts: seq<string>): seq<string> {
    seq(|parts|, i requires 0 <= i < |parts| => NormalizeSegment(isParameter, parts[i]))
  }

  function Normalized(isParameter: string -> bool, path: string): string {
    if path == "" || path == "/" then path
    else if path[0] == '/' then "/" + Join(NormalizeParts(isParameter, Split(path[1..])))
    else Join(NormalizeParts(isParameter, Split(path)))
  }

  method NormalizePath(isParameter: string -> bool, path: string) returns (normal: string)
    ensures normal == Normalized(isParameter, path)
  {
    if path == "" || path == "/" {
      return path;
    }
    var prefix, rest := "", path;
    if path[0] == '/' {
      prefix, rest := "/", path[1..];
    }
    var segments := Split(rest);
    for i := 0 to |segments|
      invariant |segments| == |Split(rest)|
      invariant forall j | 0 <= j < i :: segments[j] == NormalizeSegment(isParameter, Split(rest)[j])
      invariant forall j | i <= j < |segments| :: segments[j] == Split(rest)[j]
    {
      if segments[i] == "" || segments[i] == PLACEHOLDER {
        continue;
      }
      if isParameter(segments[i]) {
        segments := segments[i := PLACEHOLDER];
      }
    }
    assert segments == NormalizeParts(isParameter, Split(rest));
    assert path[0] != '/' ==> prefix + Join(segments) == Join(segments);
    normal := prefix + Join(segments);
  }

  lemma NormalizedParts(isParameter: string -> bool, s: string)
    ensures Split(Join(NormalizeParts(isParameter, Split(s)))) == NormalizeParts(isParameter, Split(s))
  {
    var parts := NormalizeParts(isParameter, Split(s));
    JoinSplit(s);
    forall part | part in parts ensures '/' !in part {
      var i :| 0 <= i < |parts| && parts[i] == part;
      assert Split(s)[i] in Split(s);
    }
    SplitJoin(parts);
  }

  lemma NormalizePartsTwice(isParameter: string -> bool, parts: seq<string>)
    ensures NormalizeParts(isParameter, NormalizeParts(isParameter, parts)) == NormalizeParts(isParameter, parts)
  {
  }

  /** A joined list of parts is empty or starts with a slash only if its first part is empty. */
  lemma JoinedHead(parts: seq<string>)
    requires parts != [] && FreeOf(parts)
    ensures Join(parts) == "" <==> parts == [""]
    ensures Join(parts) != "" ==> (Join(parts)[0] == '/' <==> parts[0] == "")
  {
    if |parts| > 1 && parts[0] != "" {
      assert parts[0][0] in parts[0] && Join(parts)[0] == parts[0][0];
    }
    if |parts| == 1 && parts[0] != "" {
      assert parts[0][0] in parts[0];
    }
  }

  /** Normalisation is idempotent, whatever counts as a parameter. */
  lemma NormalizeIdempotent(isParameter: string -> bool, path: string)
    ensures Normalized(isParameter, Normalized(isParameter, path)) == Normalized(isParameter, path)
  {
    if path != "" && path != "/" {
      var rest := if path[0] == '/' then path[1..] else path;
      var parts := NormalizeParts(isParameter, Split(rest));
      NormalizedParts(isParameter, rest);
      NormalizePartsTwice(isParameter, Split(rest));
      var normal := Normalized(isParameter, path);
      if path[0] == '/' {
        assert normal[1..] == Join(parts);
      } else {
        JoinSplit(path);
        JoinedHead(Split(path));
        JoinSplit(Join(parts));
        JoinedHead(parts);
      }
    }
  }

  lemma SlashPathKeepsShape(isParameter: string -> bool, path: string)
    requires |path| > 1 && path[0] == '/'
    ensures Split(Normalized(isParameter, path)) == [""] + NormalizeParts(isParameter, Split(path[1..]))
    ensures Normalized(isParameter, path)[0] == '/'
  {
    var parts := NormalizeParts(isParameter, Split(path[1..]));
    NormalizedParts(isParameter, path[1..]);
    SplitAtSlash("", Join(parts));
    assert "" + "/" + Join(parts) == Normalized(isParameter, path);
  }

  lemma BarePathKeepsShape(isParameter: string -> bool, path: string)
    requires path != "" && path[0] != '/'
    ensures Split(Normalized(isParameter, path)) == NormalizeParts(isParameter, Split(path))
    ensures Normalized(isParameter, path) != "" && Normalized(isParameter, path)[0] != '/'
  {
    var parts := NormalizeParts(isParameter, Split(path));
    NormalizedParts(isParameter, path);
    JoinSplit(path);
    JoinedHead(Split(path));
    JoinSplit(Join(parts));
    JoinedHead(parts);
  }

  /** The non-empty parts that are parameters are replaced, and nothing else. */
  predicate Replaced(isParameter: string -> bool, before: seq<string>, after: seq<string>) {
    |after| == |before| && forall i | 0 <= i < |before| ::
      after[i] == if before[i] != "" && isParameter(before[i]) then "{_}" else before[i]
  }

  /**
    Normalisation puts the placeholder for the parts that are parameters; it keeps all
    others, their number, the empty ones and the leading slash.
   */
  lemma NormalizeKeepsShape(isParameter: string -> bool, path: string)
    ensures Replaced(isParameter, Split(path), Split(Normalized(isParameter, path)))
    ensures Normalized(isParameter, path) == "" <==> path == ""
    ensures path != "" ==> (Normalized(isParameter, path)[0] == '/' <==> path[0] == '/')
  {
    if path == "/" {
      assert Split("/") == ["", ""] by { assert "/"[1..] == ""; }
    } else if path != "" && path[0] == '/' {
      SlashPathKeepsShape(isParameter, path);
      assert Split(path) == [""] + Split(path[1..]);
    } else if path != "" {
      BarePathKeepsShape(isParameter, path);
    }
  }

  /** A part that normalisation takes for a parameter, or that was replaced before. */
  predicate Parametric(isParameter: string -> bool, part: string) {
    part != "" && (isParameter(part) || part == "{_}")
  }

  /** The parts are the same, but for parameters. */
  predicate SameButParameters(isParameter: string -> bool, a: seq<string>, b: seq<string>) {
    |a| == |b| && forall i | 0 <= i < |a| ::
      a[i] == b[i] || (Parametric(isParameter, a[i]) && Parametric(isParameter, b[i]))
  }

  /** Two paths have the same normal form if and only if their parts are the same, but for parameters. */
  lemma SameNormalForm(isParameter: string -> bool, a: string, b: string)
    ensures Normalized(isParameter, a) == Normalized(isParameter, b)
      <==> SameButParameters(isParameter, Split(a), Split(b))
  {
    NormalizeKeepsShape(isParameter, a);
    NormalizeKeepsShape(isParameter, b);
    JoinSplit(Normalized(isParameter, a));
    JoinSplit(Normalized(isParameter, b));
    SameReplaced(isParameter, Split(a), Split(b), Split(Normalized(isParameter, a)), Split(Normalized(isParameter, b)));
  }

  lemma SameReplaced(isParameter: string -> bool, a: seq<string>, b: seq<string>, x: seq<string>, y: seq<string>)
    requires Replaced(isParameter, a, x) && Replaced(isParameter, b, y)
    ensures x == y <==> SameButParameters(isParameter, a, b)
  {
  }

  // ---- Rewriting the observed path ----

  method JoinSegments(segments: Path) returns (joined: string)
    ensures joined == Join(segments)
  {
    joined := "";
    for i := 0 to |segments|
      invariant joined == Join(segments[..i])
    {
      JoinSnoc(segments[..i], segments[i]);
      assert segments[..i + 1] == segments[..i] + [segments[i]];
      if i > 0 {
        joined := joined + "/";
      }
      joined := joined + segments[i];
    }
    assert segments[..|segments|] == segments;
  }

  lemma {:induction false} JoinSnoc(parts: seq<string>, part: string)
    ensures Join(parts + [part]) == if parts == [] then part else Join(parts) + "/" + part
  {
    if |parts| > 0 {
      assert (parts + [part])[1..] == parts[1..] + [part];
      JoinSnoc(parts[1..], part);
    }
  }

  method RewritePath(segments: Path, position: nat, originalPath: string) returns (path: string)
    ensures path == if position >= |segments| then originalPath else PathString(segments[position := PLACEHOLDER])
  {
    if position >= |segments| {
      return originalPath;
    }
    var out := segments;
    out := out[position := PLACEHOLDER];
    var joined := JoinSegments(out);
    path := "/" + joined;
  }

  // ---- The patterns of a collapse ----

  /** The string in front of the children of parent. */
  function ParentPath(parent: Path): string {
    "/" + Join(parent) + if parent == [] then "" else "/"
  }

  method CollapsedPatterns(parentSegments: Path, collapsedKeys: seq<string>)
    returns (sourcePatterns: seq<string>, targetPattern: string)
    ensures |sourcePatterns| == |collapsedKeys|
    ensures forall i | 0 <= i < |collapsedKeys| :: sourcePatterns[i] == ParentPath(parentSegments) + collapsedKeys[i]
    ensures targetPattern == ParentPath(parentSegments) + PLACEHOLDER
  {
    var parentPath := "/" + Join(parentSegments);
    if |parentSegments| > 0 {
      parentPath := parentPath + "/";
    }
    sourcePatterns := [];
    for i := 0 to |collapsedKeys|
      invariant |sourcePatterns| == i
      invariant forall j | 0 <= j < i :: sourcePatterns[j] == ParentPath(parentSegments) + collapsedKeys[j]
    {
      sourcePatterns := sourcePatterns + [parentPath + collapsedKeys[i]];
    }
    targetPattern := parentPath + PLACEHOLDER;
  }
}
