/** Which iframe a line belongs to, and the numeric path that names it (refs/generator.py:237-262, 298-303, 350-354). */
module SnapshotFrames {
  import opened SnapshotLines
  import opened SnapshotTree

  /** The number of iframes below n whose enclosing iframes are `around`. */
  ghost function SiblingsBelow(lines: seq<Line>, around: seq<nat>, n: nat): nat
    requires n <= |lines|
  {
    if n == 0 then 0
    else
      SiblingsBelow(lines, around, n - 1)
      + if IsFrame(lines[n - 1]) && FrameAncestors(lines, n - 1) == around then 1 else 0
  }

  /** The position of iframe f among the iframes with the same enclosing iframes. */
  ghost function LocalIndex(lines: seq<Line>, f: nat): nat
    requires f < |lines|
  {
    SiblingsBelow(lines, FrameAncestors(lines, f), f)
  }

  /** The local positions of the iframes around line i, outermost first. */
  ghost function FramePath(lines: seq<Line>, i: nat): seq<nat>
    requires i < |lines|
  {
    var around := FrameAncestors(lines, i);
    seq(|around|, p requires 0 <= p < |around| => FrameIndexAt(lines, i, p))
  }

  ghost function FrameIndexAt(lines: seq<Line>, i: nat, p: nat): nat
    requires i < |lines| && p < |FrameAncestors(lines, i)|
  {
    FramesNest(lines, i, p);
    LocalIndex(lines, FrameAncestors(lines, i)[p])
  }

  /** The path that lines inside iframe f carry. */
  ghost function OwnPath(lines: seq<Line>, f: nat): seq<nat>
    requires f < |lines|
  {
    FramePath(lines, f) + [LocalIndex(lines, f)]
  }

  lemma FramesNest(lines: seq<Line>, i: nat, p: nat)
    requires i < |lines| && p < |FrameAncestors(lines, i)|
    ensures var f := FrameAncestors(lines, i)[p];
            f < i && IsFrame(lines[f]) && FrameAncestors(lines, f) == FrameAncestors(lines, i)[..p]
  {
    AncestorsInRange(lines, i);
    KeepNests(lines, IsFrame, i, p);
  }

  lemma {:induction false} SiblingsGrow(lines: seq<Line>, around: seq<nat>, f: nat, n: nat)
    requires f < n <= |lines| && IsFrame(lines[f]) && FrameAncestors(lines, f) == around
    ensures SiblingsBelow(lines, around, f) < SiblingsBelow(lines, around, n)
    decreases n
  {
    if f < n - 1 {
      SiblingsGrow(lines, around, f, n - 1);
    }
  }

  lemma SiblingsDiffer(lines: seq<Line>, f: nat, g: nat)
    requires f < |lines| && g < |lines| && IsFrame(lines[f]) && IsFrame(lines[g])
    requires FrameAncestors(lines, f) == FrameAncestors(lines, g)
    requires LocalIndex(lines, f) == LocalIndex(lines, g)
    ensures f == g
  {
    if f < g {
      SiblingsGrow(lines, FrameAncestors(lines, g), f, g);
    } else if g < f {
      SiblingsGrow(lines, FrameAncestors(lines, f), g, f);
    }
  }

  lemma {:induction false} SamePathSameFrames(lines: seq<Line>, i: nat, j: nat, n: nat)
    requires i < |lines| && j < |lines|
    requires FramePath(lines, i) == FramePath(lines, j)
    requires n <= |FrameAncestors(lines, i)|
    ensures |FrameAncestors(lines, i)| == |FrameAncestors(lines, j)|
    ensures FrameAncestors(lines, i)[..n] == FrameAncestors(lines, j)[..n]
    decreases n
  {
    assert |FramePath(lines, i)| == |FramePath(lines, j)|;
    if n > 0 {
      SamePathSameFrames(lines, i, j, n - 1);
      var f, g := FrameAncestors(lines, i)[n - 1], FrameAncestors(lines, j)[n - 1];
      FramesNest(lines, i, n - 1);
      FramesNest(lines, j, n - 1);
      assert FramePath(lines, i)[n - 1] == LocalIndex(lines, f);
      assert FramePath(lines, j)[n - 1] == LocalIndex(lines, g);
      SiblingsDiffer(lines, f, g);
    }
  }

  /** A frame path names the enclosing iframes: two lines have the same path exactly when they lie in the
      same iframes, and different iframes hand different paths to the lines inside them. */
  lemma FramePathsNameFrames(lines: seq<Line>, i: nat, j: nat)
    requires i < |lines| && j < |lines|
    ensures FramePath(lines, i) == FramePath(lines, j) <==> FrameAncestors(lines, i) == FrameAncestors(lines, j)
    ensures IsFrame(lines[i]) && IsFrame(lines[j]) ==> (OwnPath(lines, i) == OwnPath(lines, j) <==> i == j)
  {
    if FramePath(lines, i) == FramePath(lines, j) {
      SamePathSameFrames(lines, i, j, |FrameAncestors(lines, i)|);
    }
    if FrameAncestors(lines, i) == FrameAncestors(lines, j) {
      var around := FrameAncestors(lines, i);
      assert FramePath(lines, i) == FramePath(lines, j) by {
        assert forall p :: 0 <= p < |around| ==> FramePath(lines, i)[p] == FramePath(lines, j)[p];
      }
    }
    if IsFrame(lines[i]) && IsFrame(lines[j]) && OwnPath(lines, i) == OwnPath(lines, j) {
      var a, b := OwnPath(lines, i), OwnPath(lines, j);
      assert a[..|a| - 1] == FramePath(lines, i);
      assert b[..|b| - 1] == FramePath(lines, j);
      assert a[|a| - 1] == b[|b| - 1];
      SiblingsDiffer(lines, i, j);
    }
  }

  /** The innermost enclosing iframe gives a line its path. */
  lemma PathIsInnermostOwnPath(lines: seq<Line>, i: nat)
    requires i < |lines|
    ensures var around := FrameAncestors(lines, i);
            if around == [] then FramePath(lines, i) == []
            else around[|around| - 1] < i && FramePath(lines, i) == OwnPath(lines, around[|around| - 1])
  {
    var around := FrameAncestors(lines, i);
    if around != [] {
      var m := |around| - 1;
      FramesNest(lines, i, m);
      var f := around[m];
      assert FrameAncestors(lines, f) == around[..m];
      forall p | 0 <= p < |around| ensures FramePath(lines, i)[p] == OwnPath(lines, f)[p] {
        if p < m {
          assert FrameAncestors(lines, f)[p] == around[p];
        }
      }
      assert FramePath(lines, i) == OwnPath(lines, f);
    }
  }

  /** How many iframes below n carry `path` as the path of their surroundings. */
  ghost function FramesAt(lines: seq<Line>, path: seq<nat>, n: nat): nat
    requires n <= |lines|
  {
    if n == 0 then 0
    else FramesAt(lines, path, n - 1) + if IsFrame(lines[n - 1]) && FramePath(lines, n - 1) == path then 1 else 0
  }

  /** Counting by path, as the generator does, gives the local index. */
  lemma {:induction false} CountingByPath(lines: seq<Line>, i: nat, n: nat)
    requires n <= |lines| && i < |lines|
    ensures FramesAt(lines, FramePath(lines, i), n) == SiblingsBelow(lines, FrameAncestors(lines, i), n)
    decreases n
  {
    if n > 0 {
      CountingByPath(lines, i, n - 1);
      FramePathsNameFrames(lines, n - 1, i);
    }
  }
}
