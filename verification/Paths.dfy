/**
 Slash-separated paths: the lexical cleaning of path.Clean, the lexical filepath.Rel, and
 PathResourceIncludes, which decides whether one path resource contains another.

 A cleaned rooted path is handled through its segments. Every law about inclusion is proved on
 the text the program compares, not on the segments alone.
 */
module Paths {
  import opened Prelude

  type Segments = seq<string>

  // ---- Splitting and rendering ----

  /** The pieces of `s` between slashes; never empty. */
  function Split(s: string): (r: Segments)
    ensures |r| >= 1
    ensures forall i :: 0 <= i < |r| ==> '/' !in r[i]
  {
    if s == "" then [""]
    else
      var rest := Split(s[1..]);
      if s[0] == '/' then [""] + rest else [[s[0]] + rest[0]] + rest[1..]
  }

  /** A segment that path.Clean leaves in place. */
  predicate CleanSegment(s: string) {
    s != "" && s != "." && s != ".." && '/' !in s
  }

  predicate CleanSegments(segs: Segments) {
    forall i :: 0 <= i < |segs| ==> CleanSegment(segs[i])
  }

  /** Lexical resolution under the root: empty and "." vanish, ".." removes the segment before it. */
  function Resolve(segs: Segments, stack: Segments): (r: Segments)
    requires CleanSegments(stack)
    requires forall i :: 0 <= i < |segs| ==> '/' !in segs[i]
    ensures CleanSegments(r)
  {
    if segs == [] then stack
    else if segs[0] == "" || segs[0] == "." then Resolve(segs[1..], stack)
    else if segs[0] == ".." then Resolve(segs[1..], if stack == [] then [] else stack[..|stack| - 1])
    else Resolve(segs[1..], stack + [segs[0]])
  }

  /** "/a/b" for ["a", "b"], and "" for no segment. */
  function Body(segs: Segments): string {
    if segs == [] then "" else "/" + segs[0] + Body(segs[1..])
  }

  /** The rooted path with these segments; the root itself is "/". */
  function Render(segs: Segments): string {
    if segs == [] then "/" else Body(segs)
  }

  predicate IsRooted(p: string) { p != "" && p[0] == '/' }

  function SegmentsOf(p: string): (r: Segments)
    ensures CleanSegments(r)
  { Resolve(Split(p), []) }

  /** path.Clean on a rooted path. */
  function Clean(p: string): string { Render(SegmentsOf(p)) }

  // ---- Clean forms ----

  lemma {:induction false} SplitPrefix(s: string, t: string)
    requires '/' !in s
    ensures Split(s + t) == [s + Split(t)[0]] + Split(t)[1..]
  {
    if s == "" {
      assert s + t == t && s + Split(t)[0] == Split(t)[0];
    } else {
      SplitPrefix(s[1..], t);
      assert (s + t)[1..] == s[1..] + t;
      assert [s[0]] + (s[1..] + Split(t)[0]) == s + Split(t)[0];
    }
  }

  /** Splitting the text of rooted segments gives back an empty piece and the segments. */
  lemma {:induction false} SplitBody(segs: Segments)
    requires CleanSegments(segs)
    ensures Split(Body(segs)) == [""] + segs
  {
    if segs == [] {
    } else {
      SplitBody(segs[1..]);
      var s, rest := segs[0], Body(segs[1..]);
      assert Body(segs)[1..] == s + rest;
      SplitPrefix(s, rest);
      assert s + "" == s;
      assert [s] + segs[1..] == segs;
    }
  }

  lemma {:induction false} ResolveClean(segs: Segments, stack: Segments)
    requires CleanSegments(segs) && CleanSegments(stack)
    ensures Resolve(segs, stack) == stack + segs
  {
    if segs == [] {
    } else {
      ResolveClean(segs[1..], stack + [segs[0]]);
      assert stack + [segs[0]] + segs[1..] == stack + segs;
    }
  }

  /** Rendering is undone by splitting and resolving, so a clean path has one segment list. */
  lemma SegmentsOfRender(segs: Segments)
    requires CleanSegments(segs)
    ensures SegmentsOf(Render(segs)) == segs
  {
    if segs == [] {
      assert Split("/"[1..]) == [""];
      assert Split("/")[1..] == [""];
    } else {
      SplitBody(segs);
      assert Split(Body(segs))[1..] == segs;
      ResolveClean(segs, []);
      assert [] + segs == segs;
    }
  }

  /** path.Clean leaves its own output alone. */
  lemma CleanIdempotent(p: string)
    ensures Clean(Clean(p)) == Clean(p)
  { SegmentsOfRender(SegmentsOf(p)); }

  // ---- What cleaning does to a text ----

  function Piece(c: char, rest: Segments): Segments
    requires |rest| >= 1
  { if c == '/' then [""] + rest else [[c] + rest[0]] + rest[1..] }

  lemma PieceAppend(c: char, rest: Segments, more: Segments)
    requires |rest| >= 1
    ensures Piece(c, rest + more) == Piece(c, rest) + more
  { assert (rest + more)[1..] == rest[1..] + more; }

  lemma {:induction false} SplitAt(a: string, b: string)
    ensures Split(a + "/" + b) == Split(a) + Split(b)
  {
    var whole := a + "/" + b;
    assert Split(whole) == Piece(whole[0], Split(whole[1..]));
    if a == "" {
      assert whole[1..] == b;
    } else {
      SplitAt(a[1..], b);
      assert whole[1..] == a[1..] + "/" + b;
      assert Split(a) == Piece(a[0], Split(a[1..]));
      PieceAppend(a[0], Split(a[1..]), Split(b));
    }
  }

  lemma {:induction false} ResolveInTurn(xs: Segments, ys: Segments, stack: Segments)
    requires CleanSegments(stack)
    requires (forall i :: 0 <= i < |xs| ==> '/' !in xs[i]) && forall i :: 0 <= i < |ys| ==> '/' !in ys[i]
    ensures Resolve(xs + ys, stack) == Resolve(ys, Resolve(xs, stack))
    decreases |xs|
  {
    if xs == [] {
      assert xs + ys == ys;
    } else {
      assert (xs + ys)[1..] == xs[1..] + ys;
      var next := if xs[0] == "" || xs[0] == "." then stack
                  else if xs[0] == ".." then if stack == [] then [] else stack[..|stack| - 1]
                  else stack + [xs[0]];
      ResolveInTurn(xs[1..], ys, next);
    }
  }

  lemma OneSegment(x: string)
    requires '/' !in x
    ensures Split(x) == [x]
  {
    SplitPrefix(x, "");
    assert x + "" == x;
  }

  /** A text whose pieces resolve alike in the middle cleans alike. */
  lemma MiddleResolves(a: string, pieces: Segments, middle: string, b: string)
    requires Split(middle) == pieces
    requires forall stack :: CleanSegments(stack) ==> Resolve(pieces, stack) == stack
    ensures Clean(a + "/" + middle + "/" + b) == Clean(a + "/" + b)
  {
    SplitAt(a, b);
    SplitAt(a + "/" + middle, b);
    SplitAt(a, middle);
    ResolveInTurn(Split(a), Split(b), []);
    ResolveInTurn(Split(a) + pieces, Split(b), []);
    ResolveInTurn(Split(a), pieces, []);
  }

  /**
   The laws of path.Clean: an empty or "." segment goes wherever it stands, a segment goes with the ".." behind it,
   and ".." at the root goes alone. Its output keeps none of them, so these laws decide it.
   */
  lemma CleanLaws(a: string, x: string, b: string)
    requires CleanSegment(x)
    ensures Clean(a + "//" + b) == Clean(a + "/" + b) && Clean(a + "/./" + b) == Clean(a + "/" + b)
    ensures Clean(a + "/" + x + "/../" + b) == Clean(a + "/" + b)
    ensures Clean("/../" + b) == Clean("/" + b)
    ensures CleanSegments(SegmentsOf(a)) && Clean(a) == Render(SegmentsOf(a))
  {
    OneSegment("");
    OneSegment(".");
    OneSegment("..");
    OneSegment(x);
    SplitAt(x, "..");
    assert x + "/" + ".." == x + "/..";
    assert a + "/" + "" + "/" + b == a + "//" + b && a + "/" + "." + "/" + b == a + "/./" + b;
    assert a + "/" + (x + "/..") + "/" + b == a + "/" + x + "/../" + b;
    forall stack | CleanSegments(stack) ensures Resolve([x, ".."], stack) == stack {
      assert [x, ".."][1..] == [".."] && [".."][1..] == [] && (stack + [x])[..|stack|] == stack;
      assert Resolve([x, ".."], stack) == Resolve([".."], stack + [x]);
      assert Resolve([".."], stack + [x]) == Resolve([], stack);
    }
    forall stack | CleanSegments(stack) ensures Resolve([""], stack) == stack && Resolve(["."], stack) == stack {
      assert [""][1..] == [] && ["."][1..] == [];
    }
    MiddleResolves(a, [""], "", b);
    MiddleResolves(a, ["."], ".", b);
    MiddleResolves(a, [x] + [".."], x + "/..", b);
    RootClimbs(b);
  }

  lemma RootClimbs(b: string)
    ensures Clean("/../" + b) == Clean("/" + b)
  {
    OneSegment("");
    OneSegment("..");
    SplitAt("", b);
    SplitAt("", "..");
    SplitAt("/..", b);
    assert "" + "/" + b == "/" + b && "" + "/" + ".." == "/.." && "/.." + "/" + b == "/../" + b;
    ResolveInTurn(["", ".."], Split(b), []);
    ResolveInTurn([""], Split(b), []);
    assert ["", ".."][1..] == [".."] && [".."][1..] == [] && [""][1..] == [];
    assert [""] + [".."] == ["", ".."];
  }

  /** A clean rooted path ends in a slash only when it is the root. */
  lemma {:induction false} BodyEnd(segs: Segments)
    requires CleanSegments(segs) && segs != []
    ensures Body(segs) != "" && Body(segs)[0] == '/' && Body(segs)[|Body(segs)| - 1] != '/'
  {
    if |segs| == 1 {
      assert Body(segs) == "/" + segs[0] + "";
    } else {
      BodyEnd(segs[1..]);
    }
  }

  // ---- The boundary comparison ----

  /** Equal up to the first slash means an equal segment and an equal remainder. */
  lemma {:induction false} SegmentBoundary(a: string, b: string, x: string, y: string)
    requires '/' !in a && '/' !in b
    requires x != "" && x[0] == '/' && (y == "" || y[0] == '/')
    requires a + x <= b + y
    ensures a == b && x <= y
  {
    assert (a + x)[0] == (b + y)[0];
    if a == "" || b == "" {
      assert a + x == if a == "" then x else a + x;
      assert b + y == if b == "" then y else b + y;
    } else {
      assert (a + x)[1..] == a[1..] + x;
      assert (b + y)[1..] == b[1..] + y;
      SegmentBoundary(a[1..], b[1..], x, y);
    }
  }

  /** With a slash closing both texts, the textual prefix is exactly the segment prefix. */
  lemma {:induction false} ClosedPrefix(parent: Segments, child: Segments)
    requires CleanSegments(parent) && CleanSegments(child)
    ensures Body(parent) + "/" <= Body(child) + "/" <==> parent <= child
  {
    hide Body, CleanSegments;
    ClosedText(parent);
    ClosedText(child);
    if parent != [] && child != [] {
      ClosedPrefix(parent[1..], child[1..]);
      ClosedText(parent[1..]);
      ClosedText(child[1..]);
      assert parent <= child <==> parent[0] == child[0] && parent[1..] <= child[1..];
      ClosedStep(parent[0], Body(parent[1..]) + "/", child[0], Body(child[1..]) + "/");
    }
  }

  /** The text of segments with its closing slash, from its first segment. */
  lemma ClosedText(segs: Segments)
    requires CleanSegments(segs)
    ensures (Body(segs) + "/")[0] == '/' && (segs == [] ==> Body(segs) + "/" == "/") &&
            (segs != [] ==> |Body(segs) + "/"| > 1)
    ensures segs != [] ==> CleanSegments(segs[1..]) && '/' !in segs[0]
                           && Body(segs) + "/" == "/" + (segs[0] + (Body(segs[1..]) + "/"))
  {
    if segs != [] {
      Regroup(segs[0], Body(segs[1..]));
    }
  }

  lemma Regroup(a: string, b: string)
    ensures "/" + a + b + "/" == "/" + (a + (b + "/"))
  { }

  lemma ClosedStep(a: string, x: string, b: string, y: string)
    requires '/' !in a && '/' !in b && x != "" && x[0] == '/' && (y == "" || y[0] == '/')
    ensures "/" + (a + x) <= "/" + (b + y) <==> a == b && x <= y
  {
    if "/" + (a + x) <= "/" + (b + y) {
      assert a + x == ("/" + (a + x))[1..];
      assert b + y == ("/" + (b + y))[1..];
      SegmentBoundary(a, b, x, y);
    }
  }

  lemma BoundaryPrefix(parent: Segments, child: Segments)
    requires CleanSegments(parent) && CleanSegments(child)
    ensures (Body(child) == Body(parent) || Body(parent) + "/" <= Body(child)) <==> parent <= child
  {
    ClosedPrefix(parent, child);
    var p, c := Body(parent), Body(child);
    if p + "/" <= c + "/" {
      if |p| == |c| {
        assert p == (p + "/")[..|p|] == (c + "/")[..|p|] == c;
      } else {
        assert p + "/" == (c + "/")[..|p| + 1] == c[..|p| + 1];
      }
    }
    if p + "/" <= c {
      assert (c + "/")[..|p| + 1] == c[..|p| + 1];
    }
  }

  function TrimTrailingSlash(s: string): string {
    if s != "" && s[|s| - 1] == '/' then s[..|s| - 1] else s
  }

  /** The boundary comparison of two clean paths decides exactly the segment-prefix relation. */
  lemma BoundaryTest(parent: Segments, child: Segments)
    requires CleanSegments(parent) && CleanSegments(child)
    ensures var base := TrimTrailingSlash(Render(parent));
            (Render(child) == base || base + "/" <= Render(child)) <==> parent <= child
  {
    BoundaryPrefix(parent, child);
    if parent != [] {
      BodyEnd(parent);
      assert |Body(parent) + "/"| > 1;
    }
    assert TrimTrailingSlash(Render(parent)) == Body(parent);
    if child != [] {
      BodyEnd(child);
    }
  }

  // ---- filepath.Abs, filepath.Rel and the path matcher ----

  /**
   filepath.Abs: a rooted path is cleaned, another is joined to the working directory first.
   `cwd` is None when the working directory cannot be read.
   */
  function Abs(cwd: Option<string>, p: string): Option<string> {
    if IsRooted(p) then Some(Clean(p))
    else match cwd
      case None => None
      case Some(dir) => Some(Clean(dir + "/" + p))
  }

  /** The pieces of filepath.Rel between two rooted clean paths: up with "..", then down. */
  function RelSegments(base: Segments, target: Segments): Segments {
    if base != [] && target != [] && base[0] == target[0] then RelSegments(base[1..], target[1..])
    else seq(|base|, i => "..") + target
  }

  function Join(segs: Segments): string {
    if segs == [] then "" else if |segs| == 1 then segs[0] else segs[0] + "/" + Join(segs[1..])
  }

  function Rel(base: Segments, target: Segments): string {
    var rel := RelSegments(base, target);
    if rel == [] then "." else Join(rel)
  }

  /** PathResourceIncludes: the relative path from parent to child must not climb. */
  predicate PathIncludes(cwd: Option<string>, parent: string, child: string) {
    var p, c := Abs(cwd, parent), Abs(cwd, child);
    && p.Some? && c.Some?
    && (var rel := Rel(SegmentsOf(p.value), SegmentsOf(c.value));
        rel != ".." && !("../" <= rel))
  }

  lemma {:induction false} RelClimbs(base: Segments, target: Segments)
    requires CleanSegments(base) && CleanSegments(target)
    ensures var rel := RelSegments(base, target);
            if base <= target then rel == target[|base|..]
            else rel != [] && rel[0] == ".."
  {
    if base != [] && target != [] && base[0] == target[0] {
      RelClimbs(base[1..], target[1..]);
      assert base <= target <==> base[1..] <= target[1..];
      assert base <= target ==> target[1..][|base| - 1..] == target[|base|..];
    } else if base == [] {
      assert seq(0, i => "..") + target == target;
    }
  }

  lemma JoinStartsWithDots(segs: Segments)
    requires segs != [] && '/' !in segs[0]
    ensures (Join(segs) == ".." || "../" <= Join(segs)) <==> segs[0] == ".."
  {
    if |segs| > 1 {
      var s, tail := segs[0], "/" + Join(segs[1..]);
      assert Join(segs) == s + tail;
      assert ".." + "/" == "../";
      if "../" <= Join(segs) {
        SegmentBoundary("..", s, "/", tail);
      }
      assert (s + tail)[|s|] == '/';
      if s == ".." {
        assert "../" == Join(segs)[..3];
      }
    } else {
      assert "../" <= segs[0] ==> segs[0][2] in segs[0];
    }
  }

  /** The path matcher decides the segment-prefix relation of the cleaned absolute paths. */
  lemma PathIncludesExact(cwd: Option<string>, parent: string, child: string)
    ensures PathIncludes(cwd, parent, child) <==>
            Abs(cwd, parent).Some? && Abs(cwd, child).Some? &&
            SegmentsOf(Abs(cwd, parent).value) <= SegmentsOf(Abs(cwd, child).value)
  {
    if Abs(cwd, parent).Some? && Abs(cwd, child).Some? {
      var p, c := SegmentsOf(Abs(cwd, parent).value), SegmentsOf(Abs(cwd, child).value);
      RelClimbs(p, c);
      var rel := RelSegments(p, c);
      if rel != [] {
        JoinStartsWithDots(rel);
      }
    }
  }

  lemma PathIncludesReflexive(cwd: Option<string>, p: string)
    ensures PathIncludes(cwd, p, p) <==> Abs(cwd, p).Some?
  { PathIncludesExact(cwd, p, p); }

  lemma PathIncludesTransitive(cwd: Option<string>, a: string, b: string, c: string)
    requires PathIncludes(cwd, a, b) && PathIncludes(cwd, b, c)
    ensures PathIncludes(cwd, a, c)
  {
    PathIncludesExact(cwd, a, b);
    PathIncludesExact(cwd, b, c);
    PathIncludesExact(cwd, a, c);
  }
}
