/** Refs of a snapshot, defined line by line without counters (refs/generator.py:313-347, 376-383). */
module SnapshotRefs {
  import opened Options
  import opened SnapshotLines
  import opened SnapshotTree
  import opened SnapshotFrames
  import opened RefTables
  import RefEncoding

  // ----- what each line contributes

  ghost function KeyAt(lines: seq<Line>, i: nat): Key
    requires i < |lines| && Opens(lines[i])
  {
    Key(Lower(lines[i].role), lines[i].name, FramePath(lines, i))
  }

  /** The number of lines below n that have a ref and this key. */
  ghost function Occurrences(lines: seq<Line>, cfg: Config, key: Key, n: nat): nat
    requires n <= |lines|
  {
    if n == 0 then 0
    else
      Occurrences(lines, cfg, key, n - 1)
      + if HasRef(cfg, lines[n - 1]) && KeyAt(lines, n - 1) == key then 1 else 0
  }

  ghost function Total(lines: seq<Line>, cfg: Config, key: Key): nat {
    Occurrences(lines, cfg, key, |lines|)
  }

  ghost function Nth(lines: seq<Line>, cfg: Config, i: nat): nat
    requires i < |lines| && Opens(lines[i])
  {
    Occurrences(lines, cfg, KeyAt(lines, i), i)
  }

  ghost function Identity(lines: seq<Line>, cfg: Config, i: nat): string
    requires i < |lines| && Opens(lines[i])
  {
    var key := KeyAt(lines, i);
    RefEncoding.Encode(key.role, OrEmpty(key.name), key.path, Nth(lines, cfg, i))
  }

  ghost function RefAt(lines: seq<Line>, cfg: Config, i: nat): string
    requires i < |lines| && Opens(lines[i])
  {
    cfg.hash(Identity(lines, cfg, i))
  }

  ghost function RefAncestors(lines: seq<Line>, cfg: Config, i: nat): seq<nat>
    requires i < |lines|
    ensures forall p :: 0 <= p < |RefAncestors(lines, cfg, i)| ==>
              RefAncestors(lines, cfg, i)[p] < |lines| && HasRef(cfg, lines[RefAncestors(lines, cfg, i)[p]])
  {
    AncestorsInRange(lines, i);
    KeepMembers(lines, RefIn(cfg), Ancestors(lines, i));
    var around := Keep(lines, RefIn(cfg), Ancestors(lines, i));
    assert forall p :: 0 <= p < |around| ==> around[p] in around;
    around
  }

  /** The ref of the nearest enclosing line that has one. */
  ghost function ParentRef(lines: seq<Line>, cfg: Config, i: nat): Option<string>
    requires i < |lines|
  {
    var around := RefAncestors(lines, cfg, i);
    if around == [] then None else Some(RefAt(lines, cfg, around[|around| - 1]))
  }

  ghost function DataAt(lines: seq<Line>, cfg: Config, i: nat): RefData
    requires i < |lines| && Opens(lines[i])
  {
    RefData(RefAt(lines, cfg, i), Lower(lines[i].role), lines[i].name, Some(Nth(lines, cfg, i)),
            lines[i].textContent, Lower(lines[i].role) in cfg.roles.interactive, ParentRef(lines, cfg, i),
            FramePath(lines, i), lines[i].playwrightRef)
  }

  /** What each line stores in the table of refs. */
  ghost function Items(lines: seq<Line>, cfg: Config): seq<Option<RefData>> {
    seq(|lines|, i requires 0 <= i < |lines| => ItemAt(lines, cfg, i))
  }

  ghost function ItemAt(lines: seq<Line>, cfg: Config, i: nat): Option<RefData>
    requires i < |lines|
  {
    if HasRef(cfg, lines[i]) then Some(DataAt(lines, cfg, i)) else None
  }

  ghost function FinalRefs(lines: seq<Line>, cfg: Config): RefTable {
    Deduplicated(Tabulated(Items(lines, cfg), |lines|))
  }

  /** A line's parent ref is that of the last line before it that encloses it and has one; without such a line there is none. */
  lemma ParentRefIsNearest(lines: seq<Line>, cfg: Config, i: nat, j: nat)
    requires i < |lines| && (j < i ==> HasRef(cfg, lines[j]) && Encloses(lines, j, i))
    requires forall k: nat :: k < i && (j < k || j >= i) && HasRef(cfg, lines[k]) ==> !Encloses(lines, k, i)
    ensures ParentRef(lines, cfg, i) == if j < i then Some(RefAt(lines, cfg, j)) else None
  {
    hide HasRef, RefAt;
    AncestorsInRange(lines, i);
    OpenBelowMembers(lines, i + 1, i);
    KeepMembers(lines, RefIn(cfg), Ancestors(lines, i));
    RefTest(cfg);
    var around := RefAncestors(lines, cfg, i);
    hide RefIn, OpenBelow, Keep;
    if j < i {
      assert StillOpen(lines, j, i + 1) && j in Ancestors(lines, i);
      assert j in around;
      var p :| 0 <= p < |around| && around[p] == j;
    }
    if around != [] {
      var last := around[|around| - 1];
      assert last in around && Encloses(lines, last, i) && HasRef(cfg, lines[last]);
    }
  }

  lemma RefTest(cfg: Config)
    ensures forall l: Line :: RefIn(cfg)(l) == HasRef(cfg, l)
  {
  }

  // ----- occurrence numbers

  lemma {:induction false} OccurrencesGrow(lines: seq<Line>, cfg: Config, key: Key, m: nat, n: nat)
    requires m <= n <= |lines|
    ensures Occurrences(lines, cfg, key, m) <= Occurrences(lines, cfg, key, n)
    ensures m < n && HasRef(cfg, lines[m]) && KeyAt(lines, m) == key ==>
              Occurrences(lines, cfg, key, m) < Occurrences(lines, cfg, key, n)
    decreases n
  {
    if m < n - 1 {
      OccurrencesGrow(lines, cfg, key, m, n - 1);
    }
  }

  ghost predicate Numbered(lines: seq<Line>, cfg: Config, key: Key, m: nat) {
    exists i: nat :: i < |lines| && HasRef(cfg, lines[i]) && KeyAt(lines, i) == key && Nth(lines, cfg, i) == m
  }

  /** Within one (role, name, frame path) the numbers are 0, 1, ..., k - 1 in document order. */
  lemma NthNumbersInDocumentOrder(lines: seq<Line>, cfg: Config, key: Key)
    ensures forall i: nat, j: nat ::
              i < j < |lines| && HasRef(cfg, lines[i]) && HasRef(cfg, lines[j]) && KeyAt(lines, i) == KeyAt(lines, j) == key ==>
                Nth(lines, cfg, i) < Nth(lines, cfg, j) < Total(lines, cfg, key)
    ensures forall m: nat :: m < Total(lines, cfg, key) ==> Numbered(lines, cfg, key, m)
  {
    forall i: nat, j: nat |
      i < j < |lines| && HasRef(cfg, lines[i]) && HasRef(cfg, lines[j]) && KeyAt(lines, i) == KeyAt(lines, j) == key
      ensures Nth(lines, cfg, i) < Nth(lines, cfg, j) < Total(lines, cfg, key)
    {
      OccurrencesGrow(lines, cfg, key, i, j);
      OccurrencesGrow(lines, cfg, key, j, |lines|);
    }
    forall m: nat | m < Total(lines, cfg, key)
      ensures Numbered(lines, cfg, key, m)
    {
      var i := LineWithNth(lines, cfg, key, m, |lines|);
    }
  }

  lemma {:induction false} LineWithNth(lines: seq<Line>, cfg: Config, key: Key, m: nat, n: nat) returns (i: nat)
    requires n <= |lines| && m < Occurrences(lines, cfg, key, n)
    ensures i < n && HasRef(cfg, lines[i]) && KeyAt(lines, i) == key && Nth(lines, cfg, i) == m
    decreases n
  {
    if m < Occurrences(lines, cfg, key, n - 1) {
      i := LineWithNth(lines, cfg, key, m, n - 1);
    } else {
      i := n - 1;
    }
  }

  // ----- when refs identify lines

  /** The separator cannot occur in a role the line expression matched. */
  ghost predicate RolesAreWords(lines: seq<Line>) {
    forall i :: 0 <= i < |lines| && lines[i].Matched? ==> RefEncoding.SEPARATOR !in Lower(lines[i].role)
  }

  /** The truncated digest does not collide on the identities this run hashes. */
  ghost predicate HashSeparates(lines: seq<Line>, cfg: Config) {
    forall i: nat, j: nat |
      i < |lines| && j < |lines| && HasRef(cfg, lines[i]) && HasRef(cfg, lines[j]) ::
      RefAt(lines, cfg, i) == RefAt(lines, cfg, j) ==> Identity(lines, cfg, i) == Identity(lines, cfg, j)
  }

  /** One ref-bearing line has no name and another of the same role and frame has the quoted name "". */
  ghost predicate EmptyNameBesideNone(lines: seq<Line>, cfg: Config) {
    exists i: nat, j: nat ::
      i < |lines| && j < |lines| && HasRef(cfg, lines[i]) && HasRef(cfg, lines[j])
      && lines[i].name == None && lines[j].name == Some("")
      && Lower(lines[i].role) == Lower(lines[j].role) && FramePath(lines, i) == FramePath(lines, j)
  }

  ghost predicate RefsDistinct(lines: seq<Line>, cfg: Config) {
    forall i: nat, j: nat ::
      i < j < |lines| && HasRef(cfg, lines[i]) && HasRef(cfg, lines[j]) ==> RefAt(lines, cfg, i) != RefAt(lines, cfg, j)
  }

  lemma SameRefMeans(lines: seq<Line>, cfg: Config, i: nat, j: nat)
    requires RolesAreWords(lines) && HashSeparates(lines, cfg)
    requires i < j < |lines| && HasRef(cfg, lines[i]) && HasRef(cfg, lines[j])
    requires RefAt(lines, cfg, i) == RefAt(lines, cfg, j)
    ensures EmptyNameBesideNone(lines, cfg)
  {
    var a, b := KeyAt(lines, i), KeyAt(lines, j);
    RefEncoding.EncodeInjective(a.role, OrEmpty(a.name), a.path, Nth(lines, cfg, i),
                                b.role, OrEmpty(b.name), b.path, Nth(lines, cfg, j));
    OccurrencesGrow(lines, cfg, a, i, j);
    assert a != b;
    assert a.name != b.name;
    if a.name == None {
      assert lines[i].name == None && lines[j].name == Some("");
    } else {
      assert lines[j].name == None && lines[i].name == Some("");
    }
  }

  /** Refs tell all lines apart exactly when no nameless line shares role and frame with one whose quoted
      name is empty: those two are counted apart but hashed alike. */
  lemma RefsDistinctIff(lines: seq<Line>, cfg: Config)
    requires RolesAreWords(lines) && HashSeparates(lines, cfg)
    ensures RefsDistinct(lines, cfg) <==> !EmptyNameBesideNone(lines, cfg)
  {
    if EmptyNameBesideNone(lines, cfg) {
      var i: nat, j: nat :|
        i < |lines| && j < |lines| && HasRef(cfg, lines[i]) && HasRef(cfg, lines[j])
        && lines[i].name == None && lines[j].name == Some("")
        && Lower(lines[i].role) == Lower(lines[j].role) && FramePath(lines, i) == FramePath(lines, j);
      OccurrencesGrow(lines, cfg, KeyAt(lines, i), i, |lines|);
      OccurrencesGrow(lines, cfg, KeyAt(lines, j), j, |lines|);
      var first := LineWithNth(lines, cfg, KeyAt(lines, i), 0, |lines|);
      var other := LineWithNth(lines, cfg, KeyAt(lines, j), 0, |lines|);
      assert Identity(lines, cfg, first) == Identity(lines, cfg, other);
      assert first != other;
      var low, high := if first < other then first else other, if first < other then other else first;
      assert RefAt(lines, cfg, low) == RefAt(lines, cfg, high);
    } else {
      forall i: nat, j: nat | i < j < |lines| && HasRef(cfg, lines[i]) && HasRef(cfg, lines[j])
        ensures RefAt(lines, cfg, i) != RefAt(lines, cfg, j)
      {
        if RefAt(lines, cfg, i) == RefAt(lines, cfg, j) {
          SameRefMeans(lines, cfg, i, j);
        }
      }
    }
  }

  /** Two top-level buttons, one without a name and one with the quoted name "". */
  ghost predicate TwoButtons(lines: seq<Line>) {
    && |lines| == 2
    && lines[0] == Matched(0, "button", None, "", None, None, "")
    && lines[1] == Matched(0, "button", Some(""), "", None, None, "")
  }

  /** Such a text exists and its two lines share one ref, in either mode and whatever the hash. */
  lemma TwoButtonsShareARef(lines: seq<Line>, cfg: Config)
    requires TwoButtons(lines) && cfg.roles == BROWSER_CLI_ROLES
    ensures EmptyNameBesideNone(lines, cfg) && HasRef(cfg, lines[0]) && HasRef(cfg, lines[1])
    ensures RefAt(lines, cfg, 0) == RefAt(lines, cfg, 1)
  {
    assert Lower("button") == "button";
    assert lines[0].role[..1][0] == 'b';
    assert Opens(lines[0]) && Opens(lines[1]);
    assert "button" in BROWSER_CLI_ROLES.interactive;
    assert Ancestors(lines, 0) == [];
    assert !StillOpen(lines, 0, 2);
    assert OpenBelow(lines, 2, 0) == [];
    assert Ancestors(lines, 1) == [];
    assert FramePath(lines, 0) == [] && FramePath(lines, 1) == [];
    hide ShouldKeep, FramePath, HasRef;
    assert KeyAt(lines, 0) != KeyAt(lines, 1);
    assert Occurrences(lines, cfg, KeyAt(lines, 1), 0) == 0;
    assert Nth(lines, cfg, 0) == 0 && Nth(lines, cfg, 1) == 0;
  }

  // ----- the final table

  lemma DistinctItems(lines: seq<Line>, cfg: Config)
    requires RefsDistinct(lines, cfg)
    ensures Distinct(Items(lines, cfg))
  {
    hide RefAt, ShouldKeep;
    var items := Items(lines, cfg);
    forall i, j | 0 <= i < j < |items| && items[i].Some? && items[j].Some?
      ensures items[i].value.ref != items[j].value.ref
    {
      assert items[i] == ItemAt(lines, cfg, i) && items[j] == ItemAt(lines, cfg, j);
    }
  }

  lemma {:induction false} ItemsCountKeys(lines: seq<Line>, cfg: Config, key: Key, n: nat)
    requires n <= |lines|
    ensures CountKey(Items(lines, cfg), key, n) == Occurrences(lines, cfg, key, n)
    decreases n
  {
    hide RefAt, ShouldKeep, Nth, ParentRef, FramePath;
    if n > 0 {
      ItemsCountKeys(lines, cfg, key, n - 1);
      assert Items(lines, cfg)[n - 1] == ItemAt(lines, cfg, n - 1);
    }
  }

  /** The table a snapshot ends with: one entry per ref-bearing line, in document order, holding that line's
      own data, with the occurrence number dropped exactly when the line is the only one of its key. */
  lemma FinalTable(lines: seq<Line>, cfg: Config, i: nat)
    requires RolesAreWords(lines) && HashSeparates(lines, cfg) && !EmptyNameBesideNone(lines, cfg)
    requires i < |lines| && HasRef(cfg, lines[i])
    ensures var table := FinalRefs(lines, cfg);
            && RefAt(lines, cfg, i) in table.data
            && table.data[RefAt(lines, cfg, i)]
               == DataAt(lines, cfg, i).(nth := if Total(lines, cfg, KeyAt(lines, i)) == 1 then None
                                                else Some(Nth(lines, cfg, i)))
            && table.order == RefsInOrder(Items(lines, cfg), |lines|)
  {
    hide RefAt, ShouldKeep, Nth, ParentRef, FramePath, Deduplicated;
    RefsDistinctIff(lines, cfg);
    DistinctItems(lines, cfg);
    assert Items(lines, cfg)[i] == ItemAt(lines, cfg, i);
    FinalEntry(Items(lines, cfg), i);
    ItemsCountKeys(lines, cfg, KeyAt(lines, i), |lines|);
  }

  /** What the entry of a line tells about it. */
  lemma EntryIsTheLine(lines: seq<Line>, cfg: Config, i: nat)
    requires RolesAreWords(lines) && HashSeparates(lines, cfg) && !EmptyNameBesideNone(lines, cfg)
    requires i < |lines| && HasRef(cfg, lines[i])
    ensures RefAt(lines, cfg, i) in FinalRefs(lines, cfg).data
    ensures var line, entry := lines[i], FinalRefs(lines, cfg).data[RefAt(lines, cfg, i)];
            && entry.ref == RefAt(lines, cfg, i) && entry.role == Lower(line.role) && entry.name == line.name
            && entry.textContent == line.textContent && entry.interactive == (Lower(line.role) in cfg.roles.interactive)
            && entry.framePath == FramePath(lines, i) && entry.playwrightRef == line.playwrightRef
            && entry.parentRef == ParentRef(lines, cfg, i)
  {
    FinalTable(lines, cfg, i);
    hide RefAt, ShouldKeep, Nth, ParentRef, FramePath, FinalRefs, Lower;
  }

  ghost predicate RefOfSomeLine(lines: seq<Line>, cfg: Config, ref: string) {
    exists i: nat :: i < |lines| && HasRef(cfg, lines[i]) && RefAt(lines, cfg, i) == ref
  }

  /** The table holds nothing but refs of lines. */
  lemma OnlyLinesHaveRefs(lines: seq<Line>, cfg: Config, ref: string)
    requires ref in FinalRefs(lines, cfg).data
    ensures RefOfSomeLine(lines, cfg, ref)
  {
    hide RefAt, ShouldKeep, Nth, ParentRef, FramePath;
    var items := Items(lines, cfg);
    TabulatedRefs(items, |lines|);
    hide Tabulated, DataWithoutNth;
    var i :| 0 <= i < |lines| && items[i].Some? && items[i].value.ref == ref;
    assert items[i] == ItemAt(lines, cfg, i);
  }

  // ----- the two modes

  ghost function Full(roles: Roles, hash: string -> string): Config {
    Config(roles, false, hash)
  }

  ghost function Interactive(roles: Roles, hash: string -> string): Config {
    Config(roles, true, hash)
  }

  lemma {:induction false} ModesCountAlike(lines: seq<Line>, roles: Roles, hash: string -> string, key: Key, n: nat)
    requires n <= |lines| && key.role in roles.interactive
    ensures Occurrences(lines, Full(roles, hash), key, n) == Occurrences(lines, Interactive(roles, hash), key, n)
    decreases n
  {
    if n > 0 {
      ModesCountAlike(lines, roles, hash, key, n - 1);
    }
  }

  lemma ModesSeeTheSameLine(lines: seq<Line>, roles: Roles, hash: string -> string, i: nat)
    requires i < |lines| && Opens(lines[i]) && Lower(lines[i].role) in roles.interactive
    ensures var full, inter := Full(roles, hash), Interactive(roles, hash);
            && HasRef(full, lines[i]) && HasRef(inter, lines[i])
            && RefAt(lines, full, i) == RefAt(lines, inter, i)
            && DataAt(lines, full, i) == DataAt(lines, inter, i).(parentRef := ParentRef(lines, full, i))
            && Total(lines, full, KeyAt(lines, i)) == Total(lines, inter, KeyAt(lines, i))
  {
    var key := KeyAt(lines, i);
    ModesCountAlike(lines, roles, hash, key, i);
    ModesCountAlike(lines, roles, hash, key, |lines|);
  }

  lemma NoClashInInteractive(lines: seq<Line>, roles: Roles, hash: string -> string)
    requires !EmptyNameBesideNone(lines, Full(roles, hash))
    ensures !EmptyNameBesideNone(lines, Interactive(roles, hash))
  {
    if EmptyNameBesideNone(lines, Interactive(roles, hash)) {
      var i: nat, j: nat :|
        i < |lines| && j < |lines| && HasRef(Interactive(roles, hash), lines[i]) && HasRef(Interactive(roles, hash), lines[j])
        && lines[i].name == None && lines[j].name == Some("")
        && Lower(lines[i].role) == Lower(lines[j].role) && FramePath(lines, i) == FramePath(lines, j);
      assert HasRef(Full(roles, hash), lines[i]) && HasRef(Full(roles, hash), lines[j]);
    }
  }

  /** A full and an interactive snapshot of the same text agree on every line with an interactive role: both
      give it a ref, the same one, with the same data except for the parent ref, whose line the interactive
      snapshot may have dropped. */
  lemma ModesAgreeOnInteractiveRoles(lines: seq<Line>, roles: Roles, hash: string -> string, i: nat)
    requires i < |lines| && Opens(lines[i]) && Lower(lines[i].role) in roles.interactive
    requires RolesAreWords(lines) && !EmptyNameBesideNone(lines, Full(roles, hash))
    requires HashSeparates(lines, Full(roles, hash)) && HashSeparates(lines, Interactive(roles, hash))
    ensures var full, inter := FinalRefs(lines, Full(roles, hash)).data, FinalRefs(lines, Interactive(roles, hash)).data;
            var ref := RefAt(lines, Full(roles, hash), i);
            && ref == RefAt(lines, Interactive(roles, hash), i)
            && ref in full && ref in inter
            && full[ref] == inter[ref].(parentRef := ParentRef(lines, Full(roles, hash), i))
  {
    ModesSeeTheSameLine(lines, roles, hash, i);
    NoClashInInteractive(lines, roles, hash);
    FinalTable(lines, Full(roles, hash), i);
    FinalTable(lines, Interactive(roles, hash), i);
  }

  /** Some line below n with this key has a ref in the full snapshot only. */
  ghost predicate FullOnlyBelow(lines: seq<Line>, roles: Roles, hash: string -> string, key: Key, n: nat) {
    exists j: nat ::
      j < n && j < |lines| && HasRef(Full(roles, hash), lines[j]) && !HasRef(Interactive(roles, hash), lines[j])
      && KeyAt(lines, j) == key
  }

  lemma RefsInBothModes(roles: Roles, hash: string -> string, l: Line)
    requires HasRef(Interactive(roles, hash), l)
    ensures HasRef(Full(roles, hash), l)
  {
  }

  /** The full snapshot counts at least as many, and the same number exactly if it has no line of its own there. */
  lemma {:induction false} ModesCount(lines: seq<Line>, roles: Roles, hash: string -> string, key: Key, n: nat)
    requires n <= |lines|
    ensures var full, inter := Full(roles, hash), Interactive(roles, hash);
            && Occurrences(lines, full, key, n) >= Occurrences(lines, inter, key, n)
            && (Occurrences(lines, full, key, n) == Occurrences(lines, inter, key, n)
                <==> !FullOnlyBelow(lines, roles, hash, key, n))
    decreases n
  {
    hide KeyAt, HasRef;
    if n > 0 {
      ModesCount(lines, roles, hash, key, n - 1);
      if HasRef(Interactive(roles, hash), lines[n - 1]) {
        RefsInBothModes(roles, hash, lines[n - 1]);
      }
      hide FullOnlyBelow;
    }
  }

  /** A line with a ref in the interactive snapshot, whatever its role, has one in the full snapshot too; both count it
      as the same occurrence and hash the same string if and only if no earlier line with its role, name and frame has
      a ref in the full snapshot only. */
  lemma ModesNumberAlikeIff(lines: seq<Line>, roles: Roles, hash: string -> string, i: nat)
    requires RolesAreWords(lines) && i < |lines| && HasRef(Interactive(roles, hash), lines[i])
    ensures var full, inter := Full(roles, hash), Interactive(roles, hash);
            var alike := !FullOnlyBelow(lines, roles, hash, KeyAt(lines, i), i);
            && HasRef(full, lines[i])
            && (Nth(lines, full, i) == Nth(lines, inter, i) <==> alike)
            && (Identity(lines, full, i) == Identity(lines, inter, i) <==> alike)
  {
    RefsInBothModes(roles, hash, lines[i]);
    var key := KeyAt(lines, i);
    ModesCount(lines, roles, hash, key, i);
    var n, m := Nth(lines, Full(roles, hash), i), Nth(lines, Interactive(roles, hash), i);
    hide FramePath, FullOnlyBelow, Occurrences;
    RefEncoding.EncodeInjective(key.role, OrEmpty(key.name), key.path, n, key.role, OrEmpty(key.name), key.path, m);
  }

  /** The digest does not collide on the two strings that the two modes hash for line i. */
  ghost predicate HashSeparatesModes(lines: seq<Line>, roles: Roles, hash: string -> string, i: nat)
    requires i < |lines| && Opens(lines[i])
  {
    RefAt(lines, Full(roles, hash), i) == RefAt(lines, Interactive(roles, hash), i) ==>
      Identity(lines, Full(roles, hash), i) == Identity(lines, Interactive(roles, hash), i)
  }

  /** The same for the final tables: the two entries of the line agree, parent refs aside, if and only if besides no
      line with a ref in the full snapshot only follows either, or the interactive snapshot has the line's role, name and
      frame more than once. Otherwise the full snapshot numbers a line that the interactive one leaves unnumbered. */
  lemma ModesShareEntriesIff(lines: seq<Line>, roles: Roles, hash: string -> string, i: nat)
    requires i < |lines| && HasRef(Interactive(roles, hash), lines[i])
    requires RolesAreWords(lines) && !EmptyNameBesideNone(lines, Full(roles, hash))
    requires HashSeparates(lines, Full(roles, hash)) && HashSeparates(lines, Interactive(roles, hash))
    requires HashSeparatesModes(lines, roles, hash, i)
    ensures var full, inter := Full(roles, hash), Interactive(roles, hash);
            var key, ref, same := KeyAt(lines, i), RefAt(lines, full, i), RefAt(lines, inter, i);
            && ref in FinalRefs(lines, full).data && same in FinalRefs(lines, inter).data
            && (ref == same <==> !FullOnlyBelow(lines, roles, hash, key, i))
            && (Total(lines, full, key) == Total(lines, inter, key) <==> !FullOnlyBelow(lines, roles, hash, key, |lines|))
            && (FinalRefs(lines, full).data[ref] == FinalRefs(lines, inter).data[same].(parentRef := ParentRef(lines, full, i))
                <==> && !FullOnlyBelow(lines, roles, hash, key, i)
                     && (!FullOnlyBelow(lines, roles, hash, key, |lines|) || Total(lines, inter, key) > 1))
  {
    var full, inter := Full(roles, hash), Interactive(roles, hash);
    var key := KeyAt(lines, i);
    ModesNumberAlikeIff(lines, roles, hash, i);
    ModesCount(lines, roles, hash, key, |lines|);
    OccurrencesGrow(lines, inter, key, i, |lines|);
    NoClashInInteractive(lines, roles, hash);
    FinalTable(lines, full, i);
    FinalTable(lines, inter, i);
    hide FramePath, FullOnlyBelow, Occurrences, FinalRefs, ParentRef, EmptyNameBesideNone, HashSeparates, ShouldKeep;
  }

  /** Two top-level lines that differ in their state marks only. */
  ghost predicate TwoItems(lines: seq<Line>) {
    && |lines| == 2
    && lines[0] == Matched(0, "listitem", Some("Item"), "", None, None, "")
    && lines[1] == Matched(0, "listitem", Some("Item"), "[cursor=pointer]", None, None, "")
  }

  lemma TwoItemsTree(lines: seq<Line>)
    requires TwoItems(lines)
    ensures FramePath(lines, 0) == FramePath(lines, 1) == []
  {
    hide Marked;
    assert Ancestors(lines, 0) == [];
    assert !StillOpen(lines, 0, 2);
    assert OpenBelow(lines, 2, 0) == [];
    assert Ancestors(lines, 1) == [];
  }

  lemma TwoItemsKept(lines: seq<Line>, cfg: Config)
    requires TwoItems(lines) && cfg.roles == BROWSER_CLI_ROLES
    ensures HasRef(cfg, lines[0]) == !cfg.interactive
    ensures HasRef(cfg, lines[1])
  {
    assert Lower("listitem") == "listitem";
    assert lines[0].role[..1][0] == 'l';
    assert Opens(lines[0]) && Opens(lines[1]);
    assert lines[1].suffix[0..] == "[cursor=pointer]";
    assert Marked(lines[1].suffix);
    assert !Marked("");
    assert "listitem" !in BROWSER_CLI_ROLES.interactive;
    assert "listitem" in BROWSER_CLI_ROLES.alwaysRef;
    assert ShouldKeep(cfg.roles, "listitem", Some("Item"), "", cfg.interactive) == (!cfg.interactive, !cfg.interactive);
  }

  /** The agreement stops at interactive roles: a plain list item before a clickable one is counted by the
      full snapshot only, so the clickable line is occurrence 1 there and occurrence 0 in the interactive one. */
  lemma ModesDisagreeOnMarkedLines(lines: seq<Line>, hash: string -> string)
    requires TwoItems(lines)
    ensures var full, inter := Full(BROWSER_CLI_ROLES, hash), Interactive(BROWSER_CLI_ROLES, hash);
            && HasRef(full, lines[1]) && HasRef(inter, lines[1])
            && Nth(lines, full, 1) == 1 && Nth(lines, inter, 1) == 0
            && Identity(lines, full, 1) != Identity(lines, inter, 1)
  {
    hide ShouldKeep, FramePath;
    var full, inter := Full(BROWSER_CLI_ROLES, hash), Interactive(BROWSER_CLI_ROLES, hash);
    TwoItemsTree(lines);
    TwoItemsKept(lines, full);
    TwoItemsKept(lines, inter);
    var key := KeyAt(lines, 1);
    assert KeyAt(lines, 0) == key;
    assert Occurrences(lines, full, key, 1) == 1;
    assert Occurrences(lines, inter, key, 1) == 0;
    RefEncoding.EncodeInjective(key.role, OrEmpty(key.name), key.path, 1, key.role, OrEmpty(key.name), key.path, 0);
  }
}
