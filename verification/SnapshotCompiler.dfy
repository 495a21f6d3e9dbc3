/** The one-pass snapshot generator with its stacks and counters (refs/generator.py:200-386), proved to produce
    what SnapshotTree, SnapshotFrames and SnapshotRefs define without them. */
module SnapshotCompiler {
  import opened Options
  import opened SnapshotLines
  import opened SnapshotTree
  import opened SnapshotFrames
  import opened SnapshotRefs
  import opened RefTables
  import RefEncoding

  datatype Entry = Entry(depth: nat, kept: bool, out: nat, ref: Option<string>)

  datatype FrameEntry = FrameEntry(depth: nat, path: seq<nat>)

  // ----- output text

  function Spaces(depth: nat): string {
    if depth == 0 then "" else Spaces(depth - 1) + "  "
  }

  /** A description line (`- /url: ...`) or plain text is shown under a kept line, or at top level. */
  function DescriptionLine(depth: nat, content: string): string {
    Spaces(depth) + "- " + content
  }

  function NamePart(name: Option<string>): string {
    if Truthy(name) then " \"" + OrEmpty(name) + "\"" else ""
  }

  function RefPart(ref: string, nth: nat, name: Option<string>): string {
    " [ref=" + ref + "]" + if nth > 0 && Truthy(name) then " [nth=" + RefEncoding.Decimal(nth) + "]" else ""
  }

  /** The output lines that line i stands for: none or one. */
  ghost function Emitted(lines: seq<Line>, cfg: Config, i: nat): seq<string>
    requires i < |lines|
  {
    var depth := OutDepth(lines, cfg, i);
    match lines[i]
    case Blank => []
    case Unmatched(_, text) =>
      if cfg.interactive then
        if StartsWith(text, "- /") && depth > 0 then [DescriptionLine(depth, text[2..])] else []
      else if depth > 0 || Ancestors(lines, i) == [] then
        [DescriptionLine(depth, if StartsWith(text, "- ") then text[2..] else text)]
      else []
    case Matched(_, role, name, suffix, _, _, tail) =>
      if !Opens(lines[i]) then
        if depth > 0 || Ancestors(lines, i) == [] then [DescriptionLine(depth, role + suffix)] else []
      else if !Kept(cfg, lines[i]) then []
      else
        [(if cfg.interactive then "- " + role else DescriptionLine(depth, role)) + NamePart(name)
         + (if HasRef(cfg, lines[i]) then RefPart(RefAt(lines, cfg, i), Nth(lines, cfg, i), name) else "")
         + tail]
  }

  ghost function Output(lines: seq<Line>, cfg: Config, n: nat): seq<string>
    requires n <= |lines|
  {
    if n == 0 then [] else Output(lines, cfg, n - 1) + Emitted(lines, cfg, n - 1)
  }

  function JoinLines(out: seq<string>): string {
    if out == [] then ""
    else if |out| == 1 then out[0]
    else JoinLines(out[..|out| - 1]) + "\n" + out[|out| - 1]
  }

  function TreeText(out: seq<string>): string {
    if out == [] then "(empty)" else JoinLines(out)
  }

  // ----- the stacks

  ghost function EntryAt(lines: seq<Line>, cfg: Config, j: nat): Entry
    requires j < |lines| && Opens(lines[j])
  {
    Entry(lines[j].indent, Kept(cfg, lines[j]), OutDepth(lines, cfg, j),
          if HasRef(cfg, lines[j]) then Some(RefAt(lines, cfg, j)) else None)
  }

  ghost predicate AllOpen(lines: seq<Line>, s: seq<nat>) {
    forall p :: 0 <= p < |s| ==> s[p] < |lines| && Opens(lines[s[p]])
  }

  /** The depth stack holds one entry for each of the lines s. */
  ghost predicate StackIs(lines: seq<Line>, cfg: Config, stack: seq<Entry>, s: seq<nat>) {
    AllOpen(lines, s) && |stack| == |s| && forall p :: 0 <= p < |s| ==> stack[p] == EntryAt(lines, cfg, s[p])
  }

  ghost predicate FrameStackIs(lines: seq<Line>, stack: seq<FrameEntry>, s: seq<nat>) {
    && AllOpen(lines, s) && |stack| == |s|
    && forall p :: 0 <= p < |s| ==> stack[p] == FrameEntry(lines[s[p]].indent, OwnPath(lines, s[p]))
  }

  ghost function OpenFrames(lines: seq<Line>, n: nat): seq<nat>
    requires n <= |lines|
  {
    OpenIndentsGrow(lines, n);
    Keep(lines, IsFrame, OpenLines(lines, n))
  }

  /** The output depth that the entries below n give: one more than the last kept entry that is shallower. */
  ghost function DepthBelow(stack: seq<Entry>, d: nat, n: nat): nat
    requires n <= |stack|
  {
    if n == 0 then 0
    else if stack[n - 1].depth < d && stack[n - 1].kept then stack[n - 1].out + 1
    else DepthBelow(stack, d, n - 1)
  }

  ghost function RefBelow(stack: seq<Entry>, d: nat, n: nat): Option<string>
    requires n <= |stack|
  {
    if n == 0 then None
    else if stack[n - 1].depth < d && stack[n - 1].kept && stack[n - 1].ref.Some? then stack[n - 1].ref
    else RefBelow(stack, d, n - 1)
  }

  method EffectiveDepth(stack: seq<Entry>, d: nat) returns (depth: nat)
    ensures depth == DepthBelow(stack, d, |stack|)
  {
    depth := 0;
    for p := 0 to |stack|
      invariant depth == DepthBelow(stack, d, p)
    {
      if stack[p].depth < d && stack[p].kept {
        depth := stack[p].out + 1;
      }
    }
  }

  method NearestParentRef(stack: seq<Entry>, d: nat) returns (ref: Option<string>)
    ensures ref == RefBelow(stack, d, |stack|)
  {
    for p := |stack| downto 0
      invariant RefBelow(stack, d, |stack|) == RefBelow(stack, d, p)
    {
      if stack[p].depth < d && stack[p].kept && stack[p].ref.Some? {
        return stack[p].ref;
      }
    }
    return None;
  }

  predicate AnyKept(stack: seq<Entry>) {
    exists p :: 0 <= p < |stack| && stack[p].kept
  }

  ghost function CountKept(stack: seq<Entry>, n: nat): nat
    requires n <= |stack|
  {
    if n == 0 then 0 else CountKept(stack, n - 1) + if stack[n - 1].kept then 1 else 0
  }

  lemma {:induction false} DepthCountsKept(stack: seq<Entry>, d: nat, n: nat)
    requires n <= |stack|
    requires forall p :: 0 <= p < |stack| ==> stack[p].depth < d && (stack[p].kept ==> stack[p].out == CountKept(stack, p))
    ensures DepthBelow(stack, d, n) == CountKept(stack, n)
    ensures CountKept(stack, n) > 0 <==> exists p :: 0 <= p < n && stack[p].kept
  {
    if n > 0 {
      DepthCountsKept(stack, d, n - 1);
    }
  }

  lemma {:induction false} KeepCounts(lines: seq<Line>, test: Line -> bool, s: seq<nat>, stack: seq<Entry>, n: nat)
    requires n <= |s| == |stack|
    requires forall p :: 0 <= p < |s| ==> s[p] < |lines| && stack[p].kept == test(lines[s[p]])
    ensures |Keep(lines, test, s[..n])| == CountKept(stack, n)
  {
    if n > 0 {
      assert s[..n][..n - 1] == s[..n - 1];
      KeepCounts(lines, test, s, stack, n - 1);
    }
  }

  lemma {:induction false} KeepFindsRef(lines: seq<Line>, test: Line -> bool, s: seq<nat>, stack: seq<Entry>, d: nat, n: nat)
    returns (p: nat)
    requires n <= |s| == |stack|
    requires forall p :: 0 <= p < |s| ==> s[p] < |lines| && stack[p].depth < d && stack[p].ref.Some? == test(lines[s[p]])
    requires forall p :: 0 <= p < |s| && stack[p].ref.Some? ==> stack[p].kept
    ensures var around := Keep(lines, test, s[..n]);
            if around == [] then RefBelow(stack, d, n) == None
            else p < n && around[|around| - 1] == s[p] && RefBelow(stack, d, n) == stack[p].ref
  {
    p := 0;
    if n > 0 {
      assert s[..n][..n - 1] == s[..n - 1];
      p := KeepFindsRef(lines, test, s, stack, d, n - 1);
      if test(lines[s[n - 1]]) {
        p := n - 1;
      }
    }
  }

  lemma StackDepth(lines: seq<Line>, cfg: Config, stack: seq<Entry>, i: nat)
    requires i < |lines| && !lines[i].Blank? && StackIs(lines, cfg, stack, Ancestors(lines, i))
    ensures DepthBelow(stack, lines[i].indent, |stack|) == OutDepth(lines, cfg, i)
    ensures AnyKept(stack) <==> OutDepth(lines, cfg, i) > 0
  {
    var s := Ancestors(lines, i);
    var test := KeptIn(cfg);
    AncestorsInRange(lines, i);
    forall p | 0 <= p < |s|
      ensures stack[p].depth < lines[i].indent && stack[p].kept == test(lines[s[p]]) && stack[p].out == CountKept(stack, p)
    {
      AncestorsNest(lines, i, p);
      KeepCounts(lines, test, s, stack, p);
    }
    KeepCounts(lines, test, s, stack, |s|);
    assert s[..|s|] == s;
    DepthCountsKept(stack, lines[i].indent, |stack|);
  }

  lemma EntryFacts(lines: seq<Line>, cfg: Config, stack: seq<Entry>, s: seq<nat>)
    requires StackIs(lines, cfg, stack, s)
    ensures forall p :: 0 <= p < |s| ==>
              && s[p] < |lines| && Opens(lines[s[p]])
              && stack[p].ref.Some? == HasRef(cfg, lines[s[p]])
              && (stack[p].ref.Some? ==> stack[p].kept && stack[p].ref == Some(RefAt(lines, cfg, s[p])))
  {
  }

  lemma StackParentRef(lines: seq<Line>, cfg: Config, stack: seq<Entry>, i: nat)
    requires i < |lines| && !lines[i].Blank? && StackIs(lines, cfg, stack, Ancestors(lines, i))
    ensures RefBelow(stack, lines[i].indent, |stack|) == ParentRef(lines, cfg, i)
  {
    hide HasRef, RefAt, OpenBelow, RefBelow, Keep, RefIn, Ancestors;
    var s := Ancestors(lines, i);
    EntryFacts(lines, cfg, stack, s);
    AncestorsAreShallower(lines, cfg, stack, i);
    assert s[..|s|] == s && |s| == |stack|;
    hide StackIs;
    RefTest(cfg);
    var p := KeepFindsRef(lines, RefIn(cfg), s, stack, lines[i].indent, |s|);
  }

  lemma AncestorsAreShallower(lines: seq<Line>, cfg: Config, stack: seq<Entry>, i: nat)
    requires i < |lines| && !lines[i].Blank? && StackIs(lines, cfg, stack, Ancestors(lines, i))
    ensures forall p :: 0 <= p < |stack| ==> stack[p].depth < lines[i].indent
  {
    AncestorsInRange(lines, i);
  }

  /** Popping the iframe stack leaves the iframes that enclose line i. */
  lemma PoppingLeavesFrames(lines: seq<Line>, i: nat, p: nat)
    requires i < |lines| && !lines[i].Blank? && p <= |OpenFrames(lines, i)|
    requires p > 0 ==> IndentAt(lines, OpenFrames(lines, i)[p - 1]) < lines[i].indent
    requires forall q :: p <= q < |OpenFrames(lines, i)| ==> lines[i].indent <= IndentAt(lines, OpenFrames(lines, i)[q])
    ensures OpenFrames(lines, i)[..p] == FrameAncestors(lines, i)
  {
    hide OpenBelow, Keep;
    var frames := OpenFrames(lines, i);
    OpenIndentsGrow(lines, i);
    OpenBelowMembers(lines, i, i);
    KeepMembers(lines, IsFrame, OpenLines(lines, i));
    AncestorsInRange(lines, i);
    OpenBelowMembers(lines, i + 1, i);
    KeepMembers(lines, IsFrame, Ancestors(lines, i));
    forall j: nat ensures j in frames[..p] <==> j in FrameAncestors(lines, i) {
      if j in frames[..p] {
        var q :| 0 <= q < p && frames[q] == j;
        assert j in frames && frames[p - 1] in frames;
        assert StillOpen(lines, j, i) && StillOpen(lines, frames[p - 1], i);
        assert lines[j].indent < lines[i].indent;
        assert StillOpen(lines, j, i + 1);
      }
      if j in FrameAncestors(lines, i) {
        assert StillOpen(lines, j, i);
        assert j in frames;
        var q :| 0 <= q < |frames| && frames[q] == j;
        assert q < p;
        assert frames[..p][q] == j;
      }
    }
    hide StillOpen, IndentAt;
    AscendingSame(frames[..p], FrameAncestors(lines, i));
  }

  lemma OpenFramesAfter(lines: seq<Line>, i: nat)
    requires i < |lines|
    ensures lines[i].Blank? ==> OpenFrames(lines, i + 1) == OpenFrames(lines, i)
    ensures !lines[i].Blank? ==>
              OpenFrames(lines, i + 1) == FrameAncestors(lines, i) + if IsFrame(lines[i]) then [i] else []
  {
    OpenAfter(lines, i);
    if !lines[i].Blank? {
      var s := Ancestors(lines, i);
      if Opens(lines[i]) {
        assert (s + [i])[..|s| + 1 - 1] == s;
      } else {
        assert OpenLines(lines, i + 1) == s;
      }
    }
  }

  /** Before line i the depth stack holds the lines that are still open; popping leaves those around line i. */
  method PopDepthStack(lines: seq<Line>, cfg: Config, i: nat, depthStack: seq<Entry>) returns (depths: seq<Entry>)
    requires i < |lines| && !lines[i].Blank?
    requires StackIs(lines, cfg, depthStack, OpenLines(lines, i))
    ensures StackIs(lines, cfg, depths, Ancestors(lines, i))
  {
    hide RefAt, ShouldKeep, OutDepth, OpenBelow;
    depths := depthStack;
    ghost var open := OpenLines(lines, i);
    while depths != [] && depths[|depths| - 1].depth >= lines[i].indent
      invariant |depths| <= |open| && depths == depthStack[..|depths|]
      invariant forall q :: |depths| <= q < |open| ==> lines[i].indent <= IndentAt(lines, open[q])
    {
      assert depths[|depths| - 1] == EntryAt(lines, cfg, open[|depths| - 1]);
      depths := depths[..|depths| - 1];
    }
    if depths != [] {
      assert depths[|depths| - 1] == EntryAt(lines, cfg, open[|depths| - 1]);
    }
    PoppingLeavesAncestors(lines, i, |depths|);
  }

  method PopFrameStack(lines: seq<Line>, i: nat, frameStack: seq<FrameEntry>) returns (frames: seq<FrameEntry>)
    requires i < |lines| && !lines[i].Blank?
    requires FrameStackIs(lines, frameStack, OpenFrames(lines, i))
    ensures FrameStackIs(lines, frames, FrameAncestors(lines, i))
  {
    hide OwnPath, Keep, OpenBelow;
    frames := frameStack;
    ghost var open := OpenFrames(lines, i);
    while frames != [] && frames[|frames| - 1].depth >= lines[i].indent
      invariant |frames| <= |open| && frames == frameStack[..|frames|]
      invariant forall q :: |frames| <= q < |open| ==> lines[i].indent <= IndentAt(lines, open[q])
    {
      assert frames[|frames| - 1].depth == lines[open[|frames| - 1]].indent;
      frames := frames[..|frames| - 1];
    }
    if frames != [] {
      assert frames[|frames| - 1].depth == lines[open[|frames| - 1]].indent;
    }
    PoppingLeavesFrames(lines, i, |frames|);
  }

  // ----- the counters

  ghost predicate FrameCountersAre(lines: seq<Line>, counters: map<seq<nat>, nat>, n: nat)
    requires n <= |lines|
  {
    forall path: seq<nat> :: (if path in counters then counters[path] else 0) == FramesAt(lines, path, n)
  }

  ghost predicate OccurrenceCountsAre(lines: seq<Line>, cfg: Config, counts: map<Key, nat>, n: nat)
    requires n <= |lines|
  {
    forall key: Key :: (if key in counts then counts[key] else 0) == Occurrences(lines, cfg, key, n)
  }

  method TopFramePath(lines: seq<Line>, frames: seq<FrameEntry>, i: nat) returns (path: seq<nat>)
    requires i < |lines| && FrameStackIs(lines, frames, FrameAncestors(lines, i))
    ensures path == FramePath(lines, i)
  {
    path := if frames == [] then [] else frames[|frames| - 1].path;
    PathIsInnermostOwnPath(lines, i);
  }

  lemma {:induction false} FramesAtIsLocalIndex(lines: seq<Line>, i: nat)
    requires i < |lines|
    ensures FramesAt(lines, FramePath(lines, i), i) == LocalIndex(lines, i)
  {
    CountingByPath(lines, i, i);
  }

  method PushFrame(lines: seq<Line>, i: nat, frames: seq<FrameEntry>, counters: map<seq<nat>, nat>)
    returns (frames': seq<FrameEntry>, counters': map<seq<nat>, nat>)
    requires i < |lines| && Opens(lines[i])
    requires FrameStackIs(lines, frames, FrameAncestors(lines, i)) && FrameCountersAre(lines, counters, i)
    ensures FrameStackIs(lines, frames', FrameAncestors(lines, i) + if IsFrame(lines[i]) then [i] else [])
    ensures FrameCountersAre(lines, counters', i + 1)
  {
    frames', counters' := frames, counters;
    if Lower(lines[i].role) == "iframe" {
      var parentPath := TopFramePath(lines, frames, i);
      var localIndex := if parentPath in counters then counters[parentPath] else 0;
      counters' := counters[parentPath := localIndex + 1];
      frames' := frames + [FrameEntry(lines[i].indent, parentPath + [localIndex])];
      FramesAtIsLocalIndex(lines, i);
    }
  }

  // ----- the pass

  method DescribeUnmatched(lines: seq<Line>, cfg: Config, i: nat, stack: seq<Entry>) returns (out: seq<string>)
    requires i < |lines| && lines[i].Unmatched? && StackIs(lines, cfg, stack, Ancestors(lines, i))
    ensures out == Emitted(lines, cfg, i)
  {
    StackDepth(lines, cfg, stack, i);
    var line := lines[i];
    var depth := EffectiveDepth(stack, line.indent);
    out := [];
    if cfg.interactive {
      if StartsWith(line.text, "- /") && AnyKept(stack) {
        out := [DescriptionLine(depth, line.text[2..])];
      }
    } else if AnyKept(stack) || stack == [] {
      var content := if StartsWith(line.text, "- ") then line.text[2..] else line.text;
      out := [DescriptionLine(depth, content)];
    }
  }

  method DescribeProperty(lines: seq<Line>, cfg: Config, i: nat, stack: seq<Entry>) returns (out: seq<string>)
    requires i < |lines| && lines[i].Matched? && !Opens(lines[i]) && StackIs(lines, cfg, stack, Ancestors(lines, i))
    ensures out == Emitted(lines, cfg, i)
  {
    StackDepth(lines, cfg, stack, i);
    var depth := EffectiveDepth(stack, lines[i].indent);
    out := [];
    if AnyKept(stack) || stack == [] {
      out := [DescriptionLine(depth, lines[i].role + lines[i].suffix)];
    }
  }

  method CountOccurrence(lines: seq<Line>, cfg: Config, i: nat, frames: seq<FrameEntry>, counts: map<Key, nat>)
    returns (nth: nat, counts': map<Key, nat>)
    requires i < |lines| && HasRef(cfg, lines[i]) && FrameStackIs(lines, frames, FrameAncestors(lines, i))
    requires OccurrenceCountsAre(lines, cfg, counts, i)
    ensures nth == Nth(lines, cfg, i) && OccurrenceCountsAre(lines, cfg, counts', i + 1)
  {
    var framePath := TopFramePath(lines, frames, i);
    var key := Key(Lower(lines[i].role), lines[i].name, framePath);
    nth := if key in counts then counts[key] else 0;
    counts' := counts[key := nth + 1];
  }

  method BuildRefData(lines: seq<Line>, cfg: Config, i: nat, stack: seq<Entry>, frames: seq<FrameEntry>, nth: nat)
    returns (data: RefData)
    requires i < |lines| && HasRef(cfg, lines[i]) && nth == Nth(lines, cfg, i)
    requires StackIs(lines, cfg, stack, Ancestors(lines, i)) && FrameStackIs(lines, frames, FrameAncestors(lines, i))
    ensures data == DataAt(lines, cfg, i)
  {
    var line := lines[i];
    var role := Lower(line.role);
    var framePath := TopFramePath(lines, frames, i);
    var ref := cfg.hash(RefEncoding.Encode(role, OrEmpty(line.name), framePath, nth));
    var parentRef := NearestParentRef(stack, line.indent);
    StackParentRef(lines, cfg, stack, i);
    data := RefData(ref, role, line.name, Some(nth), line.textContent, role in cfg.roles.interactive, parentRef, framePath,
                    line.playwrightRef);
  }

  /** What the pass holds before line n. */
  ghost predicate StacksAt(lines: seq<Line>, cfg: Config, n: nat, depthStack: seq<Entry>, frameStack: seq<FrameEntry>)
    requires n <= |lines|
  {
    StackIs(lines, cfg, depthStack, OpenLines(lines, n)) && FrameStackIs(lines, frameStack, OpenFrames(lines, n))
  }

  lemma StacksAfter(lines: seq<Line>, cfg: Config, i: nat, depthStack: seq<Entry>, frameStack: seq<FrameEntry>)
    requires i < |lines| && !lines[i].Blank?
    requires StackIs(lines, cfg, depthStack, Ancestors(lines, i) + if Opens(lines[i]) then [i] else [])
    requires FrameStackIs(lines, frameStack, FrameAncestors(lines, i) + if IsFrame(lines[i]) then [i] else [])
    ensures StacksAt(lines, cfg, i + 1, depthStack, frameStack)
  {
    OpenAfter(lines, i);
    OpenFramesAfter(lines, i);
  }

  lemma StacksAfterDescription(lines: seq<Line>, cfg: Config, i: nat, depthStack: seq<Entry>, frameStack: seq<FrameEntry>)
    requires i < |lines| && !lines[i].Blank? && !Opens(lines[i])
    requires StackIs(lines, cfg, depthStack, Ancestors(lines, i))
    requires FrameStackIs(lines, frameStack, FrameAncestors(lines, i))
    ensures StacksAt(lines, cfg, i + 1, depthStack, frameStack)
  {
    OpenAfter(lines, i);
    OpenFramesAfter(lines, i);
    assert OpenLines(lines, i + 1) == Ancestors(lines, i);
    assert OpenFrames(lines, i + 1) == FrameAncestors(lines, i);
  }

  lemma StacksAfterBlank(lines: seq<Line>, cfg: Config, i: nat, depthStack: seq<Entry>, frameStack: seq<FrameEntry>)
    requires i < |lines| && lines[i].Blank? && StacksAt(lines, cfg, i, depthStack, frameStack)
    ensures StacksAt(lines, cfg, i + 1, depthStack, frameStack)
  {
    OpenAfter(lines, i);
    OpenFramesAfter(lines, i);
  }

  method PushLine(lines: seq<Line>, cfg: Config, i: nat, stack: seq<Entry>, keep: bool, ref: Option<string>)
    returns (stack': seq<Entry>)
    requires i < |lines| && Opens(lines[i]) && StackIs(lines, cfg, stack, Ancestors(lines, i))
    requires keep == Kept(cfg, lines[i])
    requires ref == if HasRef(cfg, lines[i]) then Some(RefAt(lines, cfg, i)) else None
    ensures StackIs(lines, cfg, stack', Ancestors(lines, i) + [i])
  {
    StackDepth(lines, cfg, stack, i);
    var depth := EffectiveDepth(stack, lines[i].indent);
    stack' := stack + [Entry(lines[i].indent, keep, depth, ref)];
  }

  method RenderLine(lines: seq<Line>, cfg: Config, i: nat, stack: seq<Entry>, keep: bool, marks: string)
    returns (out: seq<string>)
    requires i < |lines| && Opens(lines[i]) && StackIs(lines, cfg, stack, Ancestors(lines, i))
    requires keep == Kept(cfg, lines[i])
    requires marks == if HasRef(cfg, lines[i]) then RefPart(RefAt(lines, cfg, i), Nth(lines, cfg, i), lines[i].name) else ""
    ensures out == Emitted(lines, cfg, i)
  {
    var line := lines[i];
    StackDepth(lines, cfg, stack, i);
    var depth := EffectiveDepth(stack, line.indent);
    out := [];
    if keep {
      var enhanced := (if cfg.interactive then "- " + line.role else DescriptionLine(depth, line.role)) + NamePart(line.name);
      out := [enhanced + marks + line.tail];
    }
  }

  lemma LineStep(lines: seq<Line>, cfg: Config, i: nat)
    requires i < |lines|
    ensures Items(lines, cfg)[i] == if HasRef(cfg, lines[i]) then Some(DataAt(lines, cfg, i)) else None
    ensures Output(lines, cfg, i + 1) == Output(lines, cfg, i) + Emitted(lines, cfg, i)
    ensures lines[i].Blank? ==> Emitted(lines, cfg, i) == []
    ensures !Opens(lines[i]) ==> FramesKept(lines, cfg, i) && !HasRef(cfg, lines[i])
  {
  }

  /** A line that opens nothing leaves the counters right for the next line. */
  ghost predicate FramesKept(lines: seq<Line>, cfg: Config, i: nat)
    requires i < |lines|
  {
    && (forall counters :: FrameCountersAre(lines, counters, i) ==> FrameCountersAre(lines, counters, i + 1))
    && (forall counts :: OccurrenceCountsAre(lines, cfg, counts, i) ==> OccurrenceCountsAre(lines, cfg, counts, i + 1))
  }

  lemma BeforeFirstLine(lines: seq<Line>, cfg: Config)
    ensures StacksAt(lines, cfg, 0, [], [])
    ensures FrameCountersAre(lines, map[], 0) && OccurrenceCountsAre(lines, cfg, map[], 0)
    ensures DictOrder(RefTable(map[], []))
  {
  }

  /** A line that opens a level: its ref, its output and its entries on the stacks. */
  method CompileOpening(lines: seq<Line>, cfg: Config, i: nat, depthStack: seq<Entry>, frames: seq<FrameEntry>,
                        counters: map<seq<nat>, nat>, counts: map<Key, nat>, refs: RefTable)
    returns (out: seq<string>, depthStack': seq<Entry>, frames': seq<FrameEntry>,
             counters': map<seq<nat>, nat>, counts': map<Key, nat>, refs': RefTable)
    requires i < |lines| && Opens(lines[i]) && DictOrder(refs)
    requires StackIs(lines, cfg, depthStack, Ancestors(lines, i)) && FrameStackIs(lines, frames, FrameAncestors(lines, i))
    requires FrameCountersAre(lines, counters, i) && OccurrenceCountsAre(lines, cfg, counts, i)
    ensures out == Emitted(lines, cfg, i)
    ensures StacksAt(lines, cfg, i + 1, depthStack', frames')
    ensures FrameCountersAre(lines, counters', i + 1) && OccurrenceCountsAre(lines, cfg, counts', i + 1)
    ensures refs' == if HasRef(cfg, lines[i]) then refs.Put(DataAt(lines, cfg, i)) else refs
    ensures DictOrder(refs')
  {
    var line := lines[i];
    var decision := ShouldKeep(cfg.roles, Lower(line.role), line.name, line.suffix, cfg.interactive);
    var currentRef: Option<string> := None;
    var marks := "";
    counts', refs' := counts, refs;
    if decision.0 && decision.1 {
      var nth;
      nth, counts' := CountOccurrence(lines, cfg, i, frames, counts);
      var data := BuildRefData(lines, cfg, i, depthStack, frames, nth);
      PutKeepsDictOrder(refs, data);
      refs' := refs.Put(data);
      currentRef := Some(data.ref);
      marks := RefPart(data.ref, nth, line.name);
    }
    out := RenderLine(lines, cfg, i, depthStack, decision.0, marks);
    depthStack' := PushLine(lines, cfg, i, depthStack, decision.0, currentRef);
    frames', counters' := PushFrame(lines, i, frames, counters);
    StacksAfter(lines, cfg, i, depthStack', frames');
  }

  method SnapshotFromLines(lines: seq<Line>, cfg: Config) returns (tree: string, refs: RefTable)
    ensures tree == TreeText(Output(lines, cfg, |lines|))
    ensures refs == FinalRefs(lines, cfg)
  {
    hide DataAt, Emitted, HasRef, StackIs, FrameStackIs, FrameCountersAre, OccurrenceCountsAre, DictOrder;
    BeforeFirstLine(lines, cfg);
    var result: seq<string> := [];
    refs := RefTable(map[], []);
    var depthStack: seq<Entry>, frameStack: seq<FrameEntry> := [], [];
    var frameCounters: map<seq<nat>, nat>, occurrenceCounts: map<Key, nat> := map[], map[];
    for i := 0 to |lines|
      invariant StacksAt(lines, cfg, i, depthStack, frameStack)
      invariant FrameCountersAre(lines, frameCounters, i)
      invariant OccurrenceCountsAre(lines, cfg, occurrenceCounts, i)
      invariant refs == Tabulated(Items(lines, cfg), i) && DictOrder(refs)
      invariant result == Output(lines, cfg, i)
    {
      LineStep(lines, cfg, i);
      if lines[i].Blank? {
        StacksAfterBlank(lines, cfg, i, depthStack, frameStack);
        continue;
      }
      depthStack := PopDepthStack(lines, cfg, i, depthStack);
      frameStack := PopFrameStack(lines, i, frameStack);
      var out;
      if lines[i].Unmatched? {
        out := DescribeUnmatched(lines, cfg, i, depthStack);
        StacksAfterDescription(lines, cfg, i, depthStack, frameStack);
      } else if StartsWith(lines[i].role, "/") {
        out := DescribeProperty(lines, cfg, i, depthStack);
        StacksAfterDescription(lines, cfg, i, depthStack, frameStack);
      } else {
        out, depthStack, frameStack, frameCounters, occurrenceCounts, refs :=
          CompileOpening(lines, cfg, i, depthStack, frameStack, frameCounters, occurrenceCounts, refs);
      }
      result := result + out;
    }
    refs := Deduplicate(refs);
    tree := TreeText(result);
  }
}
