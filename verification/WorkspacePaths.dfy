/** Which workspace paths hold a flow or a resource, segment by segment. */
module WorkspacePaths {
  import opened Prelude
  import opened Targets
  import opened Changes

  ghost predicate SlashFree(s: string) {
    '/' !in s
  }

  /** The path whose segments are `segments`. */
  function Join(segments: seq<string>): string {
    if segments == [] then ""
    else if |segments| == 1 then segments[0]
    else segments[0] + "/" + Join(segments[1..])
  }

  ghost predicate Segments(segments: seq<string>) {
    segments != [] && forall i | 0 <= i < |segments| :: SlashFree(segments[i])
  }

  lemma {:induction false} Split(s: string) returns (segments: seq<string>)
    ensures Segments(segments) && Join(segments) == s
  {
    if s == "" {
      segments := [""];
    } else {
      var rest := Split(s[1..]);
      if s[0] == '/' {
        segments := [""] + rest;
        assert segments[1..] == rest;
      } else {
        segments := rest[0 := [s[0]] + rest[0]];
        assert segments[1..] == rest[1..];
      }
      assert Join(segments) == [s[0]] + Join(rest);
    }
  }

  /** What is wrong with one segment. */
  function ProblemOf(segment: string): Option<PathError> {
    if segment == "" then Some(EmptySegment)
    else if segment in {".", ".."} then Some(Relative)
    else if forall c | c in segment :: IsNameChar(c) then None
    else Some(Characters)
  }

  /** `problem` is that of the first segment that has one. */
  ghost predicate FirstProblem(segments: seq<string>, problem: Option<PathError>) {
    match problem
    case None => forall i | 0 <= i < |segments| :: ProblemOf(segments[i]).None?
    case Some(_) =>
      exists i ::
        && 0 <= i < |segments| && ProblemOf(segments[i]) == problem
        && forall j | 0 <= j < i :: ProblemOf(segments[j]).None?
  }

  // ---- Folders by segments ----

  /** `f` ends where a segment of `p` ends. */
  ghost predicate Covers(f: string, p: string) {
    f <= p && (|f| == |p| || p[|f|] == '/')
  }

  lemma NoSlashIn(s: string)
    requires SlashFree(s)
    ensures forall i | 0 <= i < |s| :: s[i] != '/'
  {
    assert forall i | 0 <= i < |s| :: s[i] in s;
  }

  lemma CoversOneSegment(a: string, b: string, y: string)
    requires SlashFree(a) && SlashFree(b) && (y == "" || y[0] == '/')
    ensures Covers(a, b + y) <==> a == b
  {
    NoSlashIn(a);
    NoSlashIn(b);
    var p := b + y;
    assert forall i | 0 <= i < |b| :: p[i] == b[i];
    assert y != "" ==> p[|b|] == '/';
    if Covers(a, p) {
      assert forall i | 0 <= i < |a| :: a[i] == p[i];
      assert |a| == |b|;
      assert a == p[..|a|] == b;
    }
  }

  lemma CoversSameHead(a: string, x: string, b: string, y: string)
    requires SlashFree(a) && SlashFree(b) && (y == "" || y[0] == '/')
    ensures Covers(a + "/" + x, b + y) ==> a == b && y != ""
  {
    var f, p := a + "/" + x, b + y;
    if Covers(f, p) {
      assert a == f[..|a|] == p[..|a|];
      assert p[|a|] == f[|a|] == '/';
      CoversOneSegment(a, b, y);
    }
  }

  lemma CoversTail(a: string, x: string, q: string)
    ensures Covers(a + "/" + x, a + "/" + q) <==> Covers(x, q)
  {
    var n := |a| + 1;
    var f, p := a + "/" + x, a + "/" + q;
    assert f[n..] == x && p[n..] == q && f[..n] == p[..n];
    if Covers(f, p) {
      assert x == f[n..] == p[..|f|][n..] == q[..|x|];
      assert |x| < |q| ==> q[|x|] == p[|f|];
    }
    if Covers(x, q) {
      assert q == x + q[|x|..];
      assert p == f + q[|x|..];
      assert |x| < |q| ==> p[|f|] == q[|x|];
    }
  }

  lemma {:induction false} CoversBySegments(path: seq<string>, folder: seq<string>)
    requires Segments(path) && Segments(folder)
    ensures Covers(Join(folder), Join(path)) <==> folder <= path
    decreases |folder|
  {
    var y := if |path| == 1 then "" else "/" + Join(path[1..]);
    assert Join(path) == path[0] + y;
    if |folder| == 1 {
      CoversOneSegment(folder[0], path[0], y);
      assert folder <= path <==> folder[0] == path[0];
    } else {
      var x := Join(folder[1..]);
      assert Join(folder) == folder[0] + "/" + x;
      CoversSameHead(folder[0], x, path[0], y);
      assert folder <= path <==> folder[0] == path[0] && |path| > 1 && folder[1..] <= path[1..] by {
        assert folder == [folder[0]] + folder[1..] && path == [path[0]] + path[1..];
      }
      if folder[0] == path[0] && |path| > 1 {
        assert Join(path) == path[0] + "/" + Join(path[1..]);
        CoversTail(folder[0], x, Join(path[1..]));
        CoversBySegments(path[1..], folder[1..]);
      }
    }
  }

  /**
   * A path is within a folder, however many slashes the folder ends with, exactly when its segments start with
   * the folder's; every path is within the empty folder.
   */
  lemma WithinIsByWholeSegments(path: seq<string>, folder: seq<string>, slashes: string)
    requires Segments(path) && Segments(folder) && folder[|folder| - 1] != "" && forall c | c in slashes :: c == '/'
    ensures Within(Join(path), Join(folder) + slashes) <==> folder <= path
    ensures Within(Join(path), slashes)
  {
    JoinEnds(folder);
    TrimsSlashes(Join(folder), slashes);
    TrimsSlashes("", slashes);
    assert "" + slashes == slashes;
    CoversBySegments(path, folder);
  }

  lemma TrimsSlashes(s: string, slashes: string)
    requires (s == "" || s[|s| - 1] != '/') && forall c | c in slashes :: c == '/'
    ensures TrimSlashes(s + slashes) == s
  {
    var whole := s + slashes;
    var t := TrimSlashes(whole);
    assert forall i | |s| <= i < |whole| :: whole[i] == slashes[i - |s|] && slashes[i - |s|] in slashes;
    assert |t| <= |s|;
    assert s != "" ==> whole[|s| - 1] == s[|s| - 1];
    assert |s| <= |t|;
    assert t == whole[..|s|] == s;
  }

  // ---- What is wrong with a path ----

  lemma ReadSegment(segment: string, rest: string, read: string)
    requires SlashFree(read)
    ensures SegmentError(segment, read + rest) == SegmentError(segment + read, rest)
    decreases |read|
  {
    if read == "" {
      assert read + rest == rest && segment + read == segment;
    } else {
      var s := read + rest;
      assert s[0] == read[0] && s[1..] == read[1..] + rest && s[0] != '/';
      ReadSegment(segment + [read[0]], rest, read[1..]);
      assert segment + [read[0]] + read[1..] == segment + read;
    }
  }

  lemma ReadWholeSegment(segment: string, rest: string)
    requires rest == "" || rest[0] == '/'
    ensures ProblemOf(segment).Some? ==> SegmentError(segment, rest) == ProblemOf(segment)
    ensures ProblemOf(segment).None? && rest == "" ==> SegmentError(segment, rest) == None
    ensures ProblemOf(segment).None? && rest != "" ==> SegmentError(segment, rest) == SegmentError("", rest[1..])
  {
    if i :| 0 <= i < |segment| && !IsNameChar(segment[i]) {
      assert segment[i] in segment;
    }
  }

  lemma {:induction false} SegmentErrorIsTheFirst(segments: seq<string>)
    requires Segments(segments)
    ensures FirstProblem(segments, SegmentError("", Join(segments)))
  {
    var first, tail := segments[0], segments[1..];
    var rest := if tail == [] then "" else "/" + Join(tail);
    assert Join(segments) == first + rest;
    ReadSegment("", rest, first);
    assert "" + first == first;
    ReadWholeSegment(first, rest);
    if ProblemOf(first).None? && tail != [] {
      SegmentErrorIsTheFirst(tail);
      assert rest[1..] == Join(tail);
      assert forall i | 0 < i < |segments| :: segments[i] == tail[i - 1];
      var problem := SegmentError("", Join(tail));
      if problem.Some? {
        var i :| && 0 <= i < |tail| && ProblemOf(tail[i]) == problem
                 && forall j | 0 <= j < i :: ProblemOf(tail[j]).None?;
        assert ProblemOf(segments[i + 1]) == problem;
      }
    }
  }

  lemma {:induction false} SplitOnceAt(first: string, rest: string)
    requires SlashFree(first)
    ensures SplitOnce(first + "/" + rest) == Some((first, rest))
    ensures SplitOnce(first) == None
  {
    var s := first + "/" + rest;
    if first == "" {
      assert s[1..] == rest;
    } else {
      assert s[1..] == first[1..] + "/" + rest;
      SplitOnceAt(first[1..], rest);
      assert [first[0]] + first[1..] == first;
    }
  }

  lemma {:induction false} JoinEnds(segments: seq<string>)
    requires Segments(segments)
    ensures Join(segments) == "" || Join(segments)[|Join(segments)| - 1] == '/' <==> segments[|segments| - 1] == ""
  {
    if |segments| > 1 {
      JoinEnds(segments[1..]);
      assert segments[1..][|segments| - 2] == segments[|segments| - 1];
    } else {
      var s := segments[0];
      if s != "" { assert s[|s| - 1] in s; }
    }
  }

  /** What is left to judge once the first segment is split off. */
  lemma LocateSplits(first: string, rest: string)
    requires SlashFree(first)
    ensures Locate(first) == Err(Root)
    ensures Locate(first + "/" + rest) ==
      if first != "flows" && first != "resources" then Err(Root)
      else if rest == "" || rest[|rest| - 1] == '/' then Err(NoFileName)
      else if SegmentError("", rest).Some? then Err(SegmentError("", rest).value)
      else Ok(if first == "flows" then Flow(rest) else Resource(rest))
  {
    SplitOnceAt(first, rest);
  }

  /** How a path is judged whose segments are `first` and `tail`. */
  ghost predicate Judged(located: Result<Location, PathError>, first: string, tail: seq<string>)
    requires tail != []
  {
    if first !in {"flows", "resources"} then located == Err(Root)
    else if tail[|tail| - 1] == "" then located == Err(NoFileName)
    else if located.Err? then FirstProblem(tail, Some(located.error))
    else
      && FirstProblem(tail, None)
      && located.value == if first == "flows" then Flow(Join(tail)) else Resource(Join(tail))
  }

  lemma JudgedByTheTail(first: string, tail: seq<string>, rest: string, problem: Option<PathError>)
    requires SlashFree(first) && Segments(tail) && rest == Join(tail)
    requires problem == SegmentError("", rest) && FirstProblem(tail, problem)
    ensures Judged(Locate(first + "/" + rest), first, tail)
  {
    LocateSplits(first, rest);
    JoinEnds(tail);
  }

  /**
   * A path is located by its first segment; what it may hold is judged segment by segment: the last one must
   * be there, and the first that is empty, relative or uses another character is the problem.
   */
  lemma LocateReadsSegments(segments: seq<string>)
    requires Segments(segments)
    ensures |segments| == 1 ==> Locate(Join(segments)) == Err(Root)
    ensures |segments| > 1 ==> Judged(Locate(Join(segments)), segments[0], segments[1..])
  {
    if |segments| == 1 {
      LocateSplits(segments[0], "");
    } else {
      SegmentErrorIsTheFirst(segments[1..]);
      JudgedByTheTail(segments[0], segments[1..], Join(segments[1..]), SegmentError("", Join(segments[1..])));
    }
  }

  /** A workspace path is `flows/` or `resources/` followed by named segments, and nothing else is. */
  lemma LocatedPaths(path: string)
    ensures Locate(path).Ok? <==>
      exists segments ::
        && Segments(segments) && |segments| > 1 && Join(segments) == path
        && segments[0] in {"flows", "resources"}
        && forall i | 1 <= i < |segments| :: ProblemOf(segments[i]).None?
  {
    if Locate(path).Ok? {
      var segments := Split(path);
      LocateReadsSegments(segments);
      assert forall i | 1 <= i < |segments| :: segments[i] == segments[1..][i - 1];
    }
    if segments :|
      && Segments(segments) && |segments| > 1 && Join(segments) == path
      && segments[0] in {"flows", "resources"}
      && forall i | 1 <= i < |segments| :: ProblemOf(segments[i]).None?
    {
      LocateReadsSegments(segments);
      assert forall i | 0 <= i < |segments[1..]| :: segments[1..][i] == segments[i + 1];
    }
  }
}
