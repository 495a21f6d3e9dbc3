/** The tree that indentation denotes, defined without a stack: which earlier lines enclose a line, which
    iframes do, and what the output depth says about them (refs/generator.py:234-262). */
module SnapshotTree {
  import opened SnapshotLines

  // ----- sequences of line numbers

  ghost predicate Ascending(s: seq<nat>) {
    forall p, q :: 0 <= p < q < |s| ==> s[p] < s[q]
  }

  lemma {:induction false} AscendingSubset(a: seq<nat>, b: seq<nat>)
    requires Ascending(a) && Ascending(b)
    requires forall j: nat :: j in a ==> j in b
    ensures |a| <= |b|
  {
    if a != [] {
      var x := a[|a| - 1];
      assert x in b;
      var q :| 0 <= q < |b| && b[q] == x;
      forall j | j in a[..|a| - 1] ensures j in b[..q] {
        assert j in a;
        var r :| 0 <= r < |b| && b[r] == j;
        assert r < q;
      }
      AscendingSubset(a[..|a| - 1], b[..q]);
    }
  }

  lemma LastOfAscending(s: seq<nat>)
    requires Ascending(s) && s != []
    ensures forall j: nat :: j in s ==> j <= s[|s| - 1]
    ensures forall j: nat :: (j in s[..|s| - 1]) == (j in s && j != s[|s| - 1])
    ensures Ascending(s[..|s| - 1])
  {
    var m := |s| - 1;
    assert s == s[..m] + [s[m]];
    forall j: nat | j in s ensures j <= s[m] {
      var p :| 0 <= p < |s| && s[p] == j;
    }
    forall j: nat | j in s[..m] ensures j != s[m] {
      var p :| 0 <= p < m && s[..m][p] == j;
      assert s[p] < s[m];
    }
  }

  lemma {:induction false} AscendingSame(a: seq<nat>, b: seq<nat>)
    requires Ascending(a) && Ascending(b)
    requires forall j: nat :: j in a <==> j in b
    ensures a == b
  {
    hide Ascending;
    AscendingSubset(a, b);
    AscendingSubset(b, a);
    if a != [] {
      LastOfAscending(a);
      LastOfAscending(b);
      assert a[|a| - 1] in b;
      assert b[|b| - 1] in a;
      assert a[|a| - 1] == b[|b| - 1];
      var a', b' := a[..|a| - 1], b[..|b| - 1];
      forall j: nat ensures (j in a') == (j in b') {
        assert j in a <==> j in b;
      }
      AscendingSame(a', b');
      assert a == a[..|a| - 1] + [a[|a| - 1]];
      assert b == b[..|b| - 1] + [b[|b| - 1]];
    }
  }

  // ----- enclosing lines

  /** Line j is still open after the lines before n: every line since, except blank ones, is indented deeper. */
  ghost predicate StillOpen(lines: seq<Line>, j: nat, n: nat)
    requires n <= |lines|
  {
    && j < n
    && Opens(lines[j])
    && forall k :: j < k < n && !lines[k].Blank? ==> lines[j].indent < lines[k].indent
  }

  /** The lines below m that are still open after the lines before n, in document order. */
  ghost function OpenBelow(lines: seq<Line>, n: nat, m: nat): seq<nat>
    requires m <= n <= |lines|
  {
    if m == 0 then []
    else OpenBelow(lines, n, m - 1) + if StillOpen(lines, m - 1, n) then [m - 1] else []
  }

  ghost function OpenLines(lines: seq<Line>, n: nat): seq<nat>
    requires n <= |lines|
  {
    OpenBelow(lines, n, n)
  }

  /** The lines that enclose line i, outermost first. */
  ghost function Ancestors(lines: seq<Line>, i: nat): seq<nat>
    requires i < |lines|
  {
    OpenBelow(lines, i + 1, i)
  }

  lemma {:induction false} OpenBelowMembers(lines: seq<Line>, n: nat, m: nat)
    requires m <= n <= |lines|
    ensures Ascending(OpenBelow(lines, n, m))
    ensures forall j: nat :: j in OpenBelow(lines, n, m) <==> j < m && StillOpen(lines, j, n)
  {
    if m > 0 {
      OpenBelowMembers(lines, n, m - 1);
      var before := OpenBelow(lines, n, m - 1);
      forall p | 0 <= p < |before| ensures before[p] < m - 1 {
        assert before[p] in before;
      }
    }
  }

  /** The enclosing lines of an enclosing line are exactly the ones before it. */
  lemma AncestorsNest(lines: seq<Line>, i: nat, p: nat)
    requires i < |lines| && p < |Ancestors(lines, i)|
    ensures var j := Ancestors(lines, i)[p];
            j < i && Opens(lines[j]) && Ancestors(lines, j) == Ancestors(lines, i)[..p]
  {
    var all := Ancestors(lines, i);
    OpenBelowMembers(lines, i + 1, i);
    var j := all[p];
    assert j in all;
    OpenBelowMembers(lines, j + 1, j);
    forall a: nat ensures a in Ancestors(lines, j) <==> a in all[..p] {
      if a in all[..p] {
        assert a in all;
      }
      if a in Ancestors(lines, j) {
        assert lines[a].indent < lines[j].indent;
        assert StillOpen(lines, a, i + 1);
        assert a in all;
      }
    }
    AscendingSame(Ancestors(lines, j), all[..p]);
  }

  /** Along the open lines the indentation grows, which is why popping from the end is enough. */
  lemma OpenIndentsGrow(lines: seq<Line>, n: nat)
    requires n <= |lines|
    ensures var open := OpenLines(lines, n);
            && (forall p :: 0 <= p < |open| ==> open[p] < n && Opens(lines[open[p]]))
            && forall p, q :: 0 <= p < q < |open| ==> lines[open[p]].indent < lines[open[q]].indent
  {
    OpenBelowMembers(lines, n, n);
    var open := OpenLines(lines, n);
    forall p | 0 <= p < |open| ensures open[p] < n && StillOpen(lines, open[p], n) {
      assert open[p] in open;
    }
  }

  ghost function IndentAt(lines: seq<Line>, j: nat): nat {
    if j < |lines| && !lines[j].Blank? then lines[j].indent else 0
  }

  /** Popping every open line that is not shallower than line i leaves the lines that enclose i. */
  lemma PoppingLeavesAncestors(lines: seq<Line>, i: nat, p: nat)
    requires i < |lines| && !lines[i].Blank? && p <= |OpenLines(lines, i)|
    requires p > 0 ==> IndentAt(lines, OpenLines(lines, i)[p - 1]) < lines[i].indent
    requires forall q :: p <= q < |OpenLines(lines, i)| ==> lines[i].indent <= IndentAt(lines, OpenLines(lines, i)[q])
    ensures OpenLines(lines, i)[..p] == Ancestors(lines, i)
  {
    var open := OpenLines(lines, i);
    OpenIndentsGrow(lines, i);
    OpenBelowMembers(lines, i, i);
    OpenBelowMembers(lines, i + 1, i);
    forall j: nat ensures j in open[..p] <==> j in Ancestors(lines, i) {
      if j in open[..p] {
        var q :| 0 <= q < p && open[q] == j;
        assert j in open;
      }
      if j in Ancestors(lines, i) {
        assert StillOpen(lines, j, i);
        assert j in open;
        var q :| 0 <= q < |open| && open[q] == j;
        assert q < p;
        assert open[..p][q] == j;
      }
    }
    AscendingSame(open[..p], Ancestors(lines, i));
  }

  /** What line i itself leaves open. */
  lemma OpenAfter(lines: seq<Line>, i: nat)
    requires i < |lines|
    ensures lines[i].Blank? ==> OpenLines(lines, i + 1) == OpenLines(lines, i)
    ensures !lines[i].Blank? ==>
              OpenLines(lines, i + 1) == Ancestors(lines, i) + if Opens(lines[i]) then [i] else []
  {
    OpenBelowMembers(lines, i, i);
    OpenBelowMembers(lines, i + 1, i + 1);
    OpenBelowMembers(lines, i + 1, i);
    if lines[i].Blank? {
      AscendingSame(OpenLines(lines, i + 1), OpenLines(lines, i));
    } else {
      var expected := Ancestors(lines, i) + if Opens(lines[i]) then [i] else [];
      forall p | 0 <= p < |Ancestors(lines, i)| ensures Ancestors(lines, i)[p] < i {
        assert Ancestors(lines, i)[p] in Ancestors(lines, i);
      }
      AscendingSame(OpenLines(lines, i + 1), expected);
    }
  }

  // ----- kept lines and output depth

  /** The members of a sequence of line numbers that satisfy a test on their line. */
  ghost function Keep(lines: seq<Line>, test: Line -> bool, s: seq<nat>): seq<nat>
    requires forall p :: 0 <= p < |s| ==> s[p] < |lines|
  {
    if s == [] then []
    else
      var last := s[|s| - 1];
      Keep(lines, test, s[..|s| - 1]) + if test(lines[last]) then [last] else []
  }

  ghost function KeptIn(cfg: Config): Line -> bool {
    l => Kept(cfg, l)
  }

  ghost function RefIn(cfg: Config): Line -> bool {
    l => HasRef(cfg, l)
  }

  ghost function KeptAncestors(lines: seq<Line>, cfg: Config, i: nat): seq<nat>
    requires i < |lines|
  {
    AncestorsInRange(lines, i);
    Keep(lines, KeptIn(cfg), Ancestors(lines, i))
  }

  ghost function FrameAncestors(lines: seq<Line>, i: nat): seq<nat>
    requires i < |lines|
  {
    AncestorsInRange(lines, i);
    Keep(lines, IsFrame, Ancestors(lines, i))
  }

  /** How deep line i appears in the output: the number of enclosing lines that are kept. */
  ghost function OutDepth(lines: seq<Line>, cfg: Config, i: nat): nat
    requires i < |lines|
  {
    |KeptAncestors(lines, cfg, i)|
  }

  lemma AncestorsInRange(lines: seq<Line>, i: nat)
    requires i < |lines|
    ensures Ascending(Ancestors(lines, i))
    ensures forall p :: 0 <= p < |Ancestors(lines, i)| ==>
              Ancestors(lines, i)[p] < i && StillOpen(lines, Ancestors(lines, i)[p], i + 1)
  {
    OpenBelowMembers(lines, i + 1, i);
    forall p | 0 <= p < |Ancestors(lines, i)|
      ensures Ancestors(lines, i)[p] < i && StillOpen(lines, Ancestors(lines, i)[p], i + 1)
    {
      assert Ancestors(lines, i)[p] in Ancestors(lines, i);
    }
  }

  lemma {:induction false} KeepMembers(lines: seq<Line>, test: Line -> bool, s: seq<nat>)
    requires forall p :: 0 <= p < |s| ==> s[p] < |lines|
    requires Ascending(s)
    ensures Ascending(Keep(lines, test, s))
    ensures forall j: nat :: j in Keep(lines, test, s) <==> j in s && test(lines[j])
    ensures forall p :: 0 <= p < |Keep(lines, test, s)| ==> Keep(lines, test, s)[p] in s
  {
    if s != [] {
      var t, last := s[..|s| - 1], s[|s| - 1];
      KeepMembers(lines, test, t);
      assert s == t + [last];
      forall p | 0 <= p < |Keep(lines, test, t)| ensures Keep(lines, test, t)[p] < last {
        assert Keep(lines, test, t)[p] in t;
      }
    }
  }

  /** What precedes an element of a filtered sequence is what the filter keeps of the elements before it. */
  lemma {:induction false} KeepPrefix(lines: seq<Line>, test: Line -> bool, s: seq<nat>, p: nat) returns (q: nat)
    requires forall k :: 0 <= k < |s| ==> s[k] < |lines|
    requires p < |Keep(lines, test, s)|
    ensures q < |s| && s[q] == Keep(lines, test, s)[p] && test(lines[s[q]])
    ensures Keep(lines, test, s[..q]) == Keep(lines, test, s)[..p]
  {
    var m := |s| - 1;
    var before := Keep(lines, test, s[..m]);
    if p < |before| {
      q := KeepPrefix(lines, test, s[..m], p);
      assert s[..m][..q] == s[..q];
      assert Keep(lines, test, s)[..p] == before[..p];
    } else {
      q := m;
      assert Keep(lines, test, s)[..p] == before;
    }
  }

  /** Filtering commutes with taking the enclosing lines of an enclosing line. */
  lemma KeepNests(lines: seq<Line>, test: Line -> bool, i: nat, p: nat)
    requires i < |lines|
    requires forall q :: 0 <= q < |Ancestors(lines, i)| ==> Ancestors(lines, i)[q] < |lines|
    requires p < |Keep(lines, test, Ancestors(lines, i))|
    ensures var kept := Keep(lines, test, Ancestors(lines, i));
            && kept[p] < i && test(lines[kept[p]]) && Opens(lines[kept[p]])
            && (forall q :: 0 <= q < |Ancestors(lines, kept[p])| ==> Ancestors(lines, kept[p])[q] < |lines|)
            && Keep(lines, test, Ancestors(lines, kept[p])) == kept[..p]
  {
    var q := KeepPrefix(lines, test, Ancestors(lines, i), p);
    AncestorsNest(lines, i, q);
  }

  ghost predicate Encloses(lines: seq<Line>, j: nat, i: nat)
    requires j < i < |lines|
  {
    StillOpen(lines, j, i + 1)
  }

  lemma KeptAncestorsMembers(lines: seq<Line>, cfg: Config, i: nat)
    requires i < |lines|
    ensures Ascending(KeptAncestors(lines, cfg, i))
    ensures forall j: nat :: j in KeptAncestors(lines, cfg, i) <==> j < i && Kept(cfg, lines[j]) && Encloses(lines, j, i)
  {
    AncestorsInRange(lines, i);
    OpenBelowMembers(lines, i + 1, i);
    KeepMembers(lines, KeptIn(cfg), Ancestors(lines, i));
  }

  /** The output keeps the meaning of the input's nesting: a kept line encloses another in the input exactly
      when, in the output, every kept line after it and up to the other is deeper than it is. */
  lemma OutputNestingIsInputNesting(lines: seq<Line>, cfg: Config, j: nat, i: nat)
    requires j < i < |lines| && Kept(cfg, lines[j]) && Kept(cfg, lines[i])
    ensures Encloses(lines, j, i)
            <==> forall k :: j < k <= i && Kept(cfg, lines[k]) ==> OutDepth(lines, cfg, j) < OutDepth(lines, cfg, k)
  {
    if Encloses(lines, j, i) {
      forall k | j < k <= i && Kept(cfg, lines[k]) ensures OutDepth(lines, cfg, j) < OutDepth(lines, cfg, k) {
        EnclosedIsDeeper(lines, cfg, j, k);
      }
    } else {
      var m := ShallowKeptLine(lines, cfg, j, i);
      assert !(OutDepth(lines, cfg, j) < OutDepth(lines, cfg, m));
    }
  }

  lemma EnclosedIsDeeper(lines: seq<Line>, cfg: Config, j: nat, k: nat)
    requires j < k < |lines| && Kept(cfg, lines[j]) && Encloses(lines, j, k)
    ensures OutDepth(lines, cfg, j) < OutDepth(lines, cfg, k)
  {
    KeptAncestorsMembers(lines, cfg, j);
    KeptAncestorsMembers(lines, cfg, k);
    var kept := KeptAncestors(lines, cfg, k);
    assert j in kept;
    var p :| 0 <= p < |kept| && kept[p] == j;
    AncestorsInRange(lines, k);
    KeepNests(lines, KeptIn(cfg), k, p);
  }

  /** When j does not enclose i, the outermost kept line around i that starts after j is no deeper than j. */
  lemma ShallowKeptLine(lines: seq<Line>, cfg: Config, j: nat, i: nat) returns (m: nat)
    requires j < i < |lines| && Kept(cfg, lines[j]) && Kept(cfg, lines[i]) && !Encloses(lines, j, i)
    ensures j < m <= i && Kept(cfg, lines[m]) && OutDepth(lines, cfg, m) <= OutDepth(lines, cfg, j)
  {
    hide ShouldKeep, OpenBelow;
    KeptAncestorsMembers(lines, cfg, i);
    KeptAncestorsMembers(lines, cfg, j);
    var kept := KeptAncestors(lines, cfg, i);
    var p := 0;
    while p < |kept| && kept[p] <= j
      invariant p <= |kept|
      invariant forall q :: 0 <= q < p ==> kept[q] <= j
    {
      p := p + 1;
    }
    if p < |kept| {
      m := kept[p];
      assert m in kept;
      AncestorsInRange(lines, i);
      KeepNests(lines, KeptIn(cfg), i, p);
      assert KeptAncestors(lines, cfg, m) == kept[..p];
    } else {
      m := i;
      assert KeptAncestors(lines, cfg, m) == kept[..p];
    }
    KeptAncestorsMembers(lines, cfg, m);
    forall a | a in KeptAncestors(lines, cfg, m) ensures a in KeptAncestors(lines, cfg, j) {
      assert a in kept;
      assert a != j;
      assert a < j;
    }
    AscendingSubset(KeptAncestors(lines, cfg, m), KeptAncestors(lines, cfg, j));
  }
}
