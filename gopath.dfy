/**
 * Lexical path handling of Go's `path/filepath` on a Unix system (separator `/`):
 * `Clean`, `Join`, `IsAbs` and `Abs`, with the working directory as a parameter.
 */
module GoPath {
  import opened Wrappers
  import opened GoStrings

  predicate IsAbs(p: string) { |p| > 0 && p[0] == '/' }

  /**
   * Resolves the segments of a path left to right: empty and `.` segments are
   * dropped, `..` removes the previous real segment, is dropped at the root of
   * a rooted path, and is kept otherwise.
   */
  function Resolve(acc: seq<string>, parts: seq<string>, rooted: bool): (r: seq<string>)
    requires forall k :: 0 <= k < |acc| ==> acc[k] != "" && acc[k] != "."
    requires rooted ==> forall k :: 0 <= k < |acc| ==> acc[k] != ".."
    requires forall k :: 0 <= k < |acc| ==> '/' !in acc[k]
    requires forall k :: 0 <= k < |parts| ==> '/' !in parts[k]
    ensures forall k :: 0 <= k < |r| ==> r[k] != "" && r[k] != "." && '/' !in r[k]
    ensures rooted ==> forall k :: 0 <= k < |r| ==> r[k] != ".."
    decreases |parts|
  {
    if parts == [] then acc
    else
      var e := parts[0];
      if e == "" || e == "." then Resolve(acc, parts[1..], rooted)
      else if e == ".." then
        if |acc| > 0 && acc[|acc| - 1] != ".." then Resolve(acc[..|acc| - 1], parts[1..], rooted)
        else if rooted then Resolve(acc, parts[1..], rooted)
        else Resolve(acc + [e], parts[1..], rooted)
      else Resolve(acc + [e], parts[1..], rooted)
  }

  /** `filepath.Clean`: the shortest lexically equivalent path; `.` for an empty result. */
  function Clean(p: string): (r: string)
    ensures r != []
    ensures IsAbs(r) <==> IsAbs(p)
  {
    var rooted := IsAbs(p);
    SplitSeparatorFree(p, '/');
    var segments := Resolve([], Split(p, '/'), rooted);
    var body := Join(segments, "/");
    if rooted then "/" + body else if body == [] then "." else
    assert body[0] != '/' by { NoLeadingSeparator(segments); }
    body
  }

  /** Joining segments none of which is empty or contains `/` never starts with `/`. */
  lemma NoLeadingSeparator(es: seq<string>)
    requires forall k :: 0 <= k < |es| ==> es[k] != ""
    requires forall k :: 0 <= k < |es| ==> '/' !in es[k]
    requires Join(es, "/") != []
    ensures Join(es, "/")[0] != '/'
  {
    assert es != [];
    assert Join(es, "/")[0] == es[0][0];
  }

  /** `filepath.Join`: empty elements are ignored, the rest joined by `/` and cleaned; all empty gives "". */
  function JoinPath(elems: seq<string>): (r: string)
    ensures (forall k :: 0 <= k < |elems| ==> elems[k] == "") <==> r == ""
  {
    if elems == [] then ""
    else if elems[0] == "" then JoinPath(elems[1..])
    else Clean(Join(elems, "/"))
  }

  /** `filepath.Abs`: a cleaned absolute path; a relative path is joined to the working directory, whose lookup may fail. */
  function Abs(cwd: Option<string>, p: string): (r: Result<string>)
    ensures IsAbs(p) ==> r == Ok(Clean(p))
    ensures !IsAbs(p) && cwd.None? ==> r.Err?
  {
    if IsAbs(p) then Ok(Clean(p))
    else if cwd.None? then Err("getwd failed")
    else Ok(JoinPath([cwd.value, p]))
  }

  /** `path` equals `dir` or lies below it at a separator boundary. */
  predicate Within(path: string, dir: string) {
    path == dir || HasPrefix(path, dir + "/")
  }

  /** A path segment that `Clean` keeps as it is: non-empty, without `/`, neither `.` nor `..`. */
  predicate Segment(x: string) { x != "" && x != "." && x != ".." && '/' !in x }

  /** Appending `/x` for an `x` without separators appends one piece to the split. */
  lemma SplitExtend(a: string, x: string)
    requires '/' !in x
    ensures Split(a + "/" + x, '/') == Split(a, '/') + [x]
  {
    var pieces := Split(a, '/');
    JoinSplit(a, '/');
    JoinAppend(pieces, x, "/");
    SplitSeparatorFree(a, '/');
    var extended := pieces + [x];
    assert forall k :: 0 <= k < |extended| ==> '/' !in extended[k];
    SplitJoin(extended, '/');
  }

  lemma {:induction false} ResolveExtend(acc: seq<string>, parts: seq<string>, x: string, rooted: bool)
    requires forall k :: 0 <= k < |acc| ==> acc[k] != "" && acc[k] != "."
    requires rooted ==> forall k :: 0 <= k < |acc| ==> acc[k] != ".."
    requires forall k :: 0 <= k < |acc| ==> '/' !in acc[k]
    requires forall k :: 0 <= k < |parts| ==> '/' !in parts[k]
    requires Segment(x)
    ensures Resolve(acc, parts + [x], rooted) == Resolve(acc, parts, rooted) + [x]
    decreases |parts|
  {
    if parts == [] {
      assert [] + [x] == [x];
      assert Resolve(acc, [x], rooted) == Resolve(acc + [x], [], rooted);
    } else {
      var e := parts[0];
      assert (parts + [x])[0] == e && (parts + [x])[1..] == parts[1..] + [x];
      if e == "" || e == "." {
        ResolveExtend(acc, parts[1..], x, rooted);
      } else if e == ".." {
        if |acc| > 0 && acc[|acc| - 1] != ".." {
          ResolveExtend(acc[..|acc| - 1], parts[1..], x, rooted);
        } else if rooted {
          ResolveExtend(acc, parts[1..], x, rooted);
        } else {
          ResolveExtend(acc + [e], parts[1..], x, rooted);
        }
      } else {
        ResolveExtend(acc + [e], parts[1..], x, rooted);
      }
    }
  }

  /** Cleaning an absolute path extended by one plain segment extends the cleaned path by that segment. */
  lemma CleanExtend(t: string, x: string)
    requires IsAbs(t) && Segment(x)
    ensures Clean(t + "/" + x) == (if Clean(t) == "/" then "/" + x else Clean(t) + "/" + x)
  {
    var u := t + "/" + x;
    assert IsAbs(u) by { assert u[0] == t[0]; }
    var parts := Split(t, '/');
    SplitSeparatorFree(t, '/');
    SplitExtend(t, x);
    ResolveExtend([], parts, x, true);
    var r := Resolve([], parts, true);
    CleanAbs(t);
    CleanAbs(u);
    assert Clean(u) == "/" + Join(r + [x], "/");
    if r == [] {
      assert Join(r + [x], "/") == x;
    } else {
      JoinAppend(r, x, "/");
      assert Join(r, "/") != [] by { NonEmptyJoin(r); }
    }
  }

  /** The cleaned form of an absolute path: `/` and its resolved segments. */
  lemma CleanAbs(p: string)
    requires IsAbs(p)
    ensures (forall k :: 0 <= k < |Split(p, '/')| ==> '/' !in Split(p, '/')[k]) &&
            Clean(p) == "/" + Join(Resolve([], Split(p, '/'), true), "/")
  {
    SplitSeparatorFree(p, '/');
  }

  lemma NonEmptyJoin(es: seq<string>)
    requires es != [] && es[0] != ""
    ensures Join(es, "/") != []
  {
  }

  /** `filepath.Join(t, a)` for an absolute `t` and a plain segment `a`. */
  lemma JoinPathSegment(t: string, a: string)
    requires IsAbs(t) && Segment(a)
    ensures JoinPath([t, a]) == (if Clean(t) == "/" then "/" + a else Clean(t) + "/" + a)
  {
    assert Join([t, a], "/") == t + "/" + a;
    CleanExtend(t, a);
  }

  /** `filepath.Join(t, a, b)` for an absolute `t` and plain segments `a` and `b`. */
  lemma JoinPathSegments(t: string, a: string, b: string)
    requires IsAbs(t) && Segment(a) && Segment(b)
    ensures JoinPath([t, a, b]) == (if Clean(t) == "/" then "/" + a else Clean(t) + "/" + a) + "/" + b
  {
    assert Join([t, a, b], "/") == (t + "/" + a) + "/" + b;
    CleanExtend(t, a);
    CleanExtend(t + "/" + a, b);
  }

  /** The cleaned absolute directory as a prefix for `/x`: empty for the root. */
  function RootPrefix(t: string): string {
    if Clean(t) == "/" then "" else Clean(t)
  }

  /** `filepath.Join(t, s1, ..., sn)` for an absolute `t` and plain segments: the cleaned `t`, then the segments joined by `/`. */
  lemma {:induction false} JoinPathAll(t: string, segs: seq<string>)
    requires IsAbs(t) && segs != []
    requires forall k :: 0 <= k < |segs| ==> Segment(segs[k])
    ensures JoinPath([t] + segs) == RootPrefix(t) + "/" + Join(segs, "/")
    decreases |segs|
  {
    if |segs| == 1 {
      assert [t] + segs == [t, segs[0]];
      JoinPathSegment(t, segs[0]);
    } else {
      var init, x := segs[..|segs| - 1], segs[|segs| - 1];
      assert segs == init + [x];
      JoinPathAll(t, init);
      assert [t] + segs == ([t] + init) + [x];
      JoinPathStep(t, init, x);
    }
  }

  /** One more plain segment after `filepath.Join(t, init...)`, for a non-empty `init`. */
  lemma JoinPathStep(t: string, init: seq<string>, x: string)
    requires IsAbs(t) && init != [] && Segment(x)
    requires forall k :: 0 <= k < |init| ==> Segment(init[k])
    requires JoinPath([t] + init) == RootPrefix(t) + "/" + Join(init, "/")
    ensures JoinPath(([t] + init) + [x]) == RootPrefix(t) + "/" + Join(init + [x], "/")
  {
    var head := [t] + init;
    var u := Join(head, "/");
    var p := RootPrefix(t);
    var j := Join(init, "/");
    JoinHeadAbs(t, init);
    JoinPathHead(head);
    assert Clean(u) == p + "/" + j;
    JoinAppend(head, x, "/");
    JoinPathHead(head + [x]);
    assert JoinPath(head + [x]) == Clean(u + "/" + x);
    CleanExtend(u, x);
    NonEmptyJoin(init);
    assert |Clean(u)| > 1;
    assert Clean(u + "/" + x) == (p + "/" + j) + "/" + x;
    JoinAppend(init, x, "/");
    assert Join(init + [x], "/") == j + "/" + x;
    ConcatRegroup(p + "/", j, "/", x);
  }

  /** Regrouping a four-part concatenation. */
  lemma ConcatRegroup(a: string, b: string, c: string, d: string)
    ensures ((a + b) + c) + d == a + ((b + c) + d)
  {
  }

  /** Joining an absolute `t` with more elements starts with `t/`. */
  lemma JoinHeadAbs(t: string, init: seq<string>)
    requires IsAbs(t) && init != []
    ensures Join([t] + init, "/") == t + "/" + Join(init, "/") && IsAbs(Join([t] + init, "/"))
  {
    var head := [t] + init;
    assert head[0] == t && head[1..] == init;
    assert Join(head, "/")[0] == t[0];
  }

  /** A path list starting with a non-empty element is joined and cleaned. */
  lemma JoinPathHead(elems: seq<string>)
    requires elems != [] && elems[0] != ""
    ensures JoinPath(elems) == Clean(Join(elems, "/"))
  {
  }

  /** A single plain segment below the root is already clean. */
  lemma CleanRootSegment(a: string)
    requires Segment(a)
    ensures Clean("/" + a) == "/" + a
  {
    SplitCons("", a, '/');
    assert "" + "/" + a == "/" + a;
    assert IndexOf(a, '/') == -1;
    assert Split("/" + a, '/') == ["", a];
    assert ["", a][1..] == [a] && [a][1..] == [] && [] + [a] == [a];
    assert Resolve([a], [], true) == [a];
    assert Resolve([], [a], true) == [a];
    assert Resolve([], ["", a], true) == [a];
  }

  /** The root is clean. */
  lemma CleanRoot()
    ensures Clean("/") == "/"
  {
    SplitCons("", "", '/');
    assert "" + "/" + "" == "/";
    assert Split("/", '/') == ["", ""];
    assert ["", ""][1..] == [""] && [""][1..] == [];
    assert Resolve([], [""], true) == [];
    assert Resolve([], ["", ""], true) == [];
  }

  /** The root followed by plain segments joined by `/` is clean. */
  lemma {:induction false} CleanJoinedSegments(segs: seq<string>)
    requires forall k :: 0 <= k < |segs| ==> Segment(segs[k])
    ensures Clean("/" + Join(segs, "/")) == "/" + Join(segs, "/")
    decreases |segs|
  {
    if segs == [] {
      CleanRoot();
    } else if |segs| == 1 {
      CleanRootSegment(segs[0]);
    } else {
      var init, x := segs[..|segs| - 1], segs[|segs| - 1];
      assert segs == init + [x];
      JoinAppend(init, x, "/");
      CleanJoinedSegments(init);
      var t := "/" + Join(init, "/");
      assert "/" + Join(segs, "/") == t + "/" + x;
      NonEmptyJoin(init);
      CleanFixedExtend(t, x);
    }
  }

  /** `Clean` is idempotent on absolute paths. */
  lemma CleanIdempotentAbs(p: string)
    requires IsAbs(p)
    ensures Clean(Clean(p)) == Clean(p)
  {
    SplitSeparatorFree(p, '/');
    var segments := Resolve([], Split(p, '/'), true);
    assert Clean(p) == "/" + Join(segments, "/");
    assert forall k :: 0 <= k < |segments| ==> Segment(segments[k]);
    CleanJoinedSegments(segments);
  }

  /** `filepath.Join(t, a)` for an absolute `t` and a plain segment `a` is clean, absolute and not the root. */
  lemma JoinPathSegmentClean(t: string, a: string)
    requires IsAbs(t) && Segment(a)
    ensures IsAbs(JoinPath([t, a])) && JoinPath([t, a]) != "/"
    ensures Clean(JoinPath([t, a])) == JoinPath([t, a])
  {
    JoinPathSegment(t, a);
    assert JoinPath([t, a]) == Clean(t + "/" + a) by { assert Join([t, a], "/") == t + "/" + a; }
    CleanIdempotentAbs(t + "/" + a);
  }

  /** A clean absolute path other than the root stays clean when extended by a plain segment. */
  lemma CleanFixedExtend(t: string, x: string)
    requires IsAbs(t) && Clean(t) == t && t != "/" && Segment(x)
    ensures Clean(t + "/" + x) == t + "/" + x
    ensures IsAbs(t + "/" + x) && t + "/" + x != "/"
  {
    CleanExtend(t, x);
  }

  /** Below a separator boundary: a directory `a` that is a prefix of `b + r` at a `/` boundary, with no separators inside `a` or `b`, is `b`. */
  lemma SegmentBoundary(a: string, b: string, r: string)
    requires '/' !in a && '/' !in b
    requires r == [] || r[0] == '/'
    requires HasPrefix(b + r, a + "/")
    ensures a == b
  {
    var s := b + r;
    assert s[..|a| + 1] == a + "/";
    assert forall k :: 0 <= k < |a| ==> s[k] == a[k] && a[k] in a;
    assert s[|a|] == '/';
    assert IndexOf(s, '/') == |a|;
    assert '/' in r;
    IndexOfAppend(b, r, '/');
    assert IndexOf(r, '/') == 0;
    assert s[..|b|] == b;
  }
}
