/** From what an agent types to the line it means (refs/resolver.py:67-76, 173-214). */
module RefResolver {
  import opened Options
  import opened SnapshotLines
  import opened SnapshotRefs
  import opened RefTables
  import opened SnapshotTree
  import opened SnapshotFrames

  datatype LocatorSpec = LocatorSpec(ref: string, role: string, name: Option<string>, textContent: Option<string>,
                                     matchText: Option<string>, childText: Option<string>, nth: Option<nat>,
                                     interactive: bool, framePath: seq<nat>)

  /** The characters that Python's `str.strip` removes. */
  predicate IsSpace(c: char) {
    var u := c as int;
    || 9 <= u <= 13 || 28 <= u <= 32 || u == 0x85 || u == 0xA0 || u == 0x1680 || 0x2000 <= u <= 0x200A
    || u == 0x2028 || u == 0x2029 || u == 0x202F || u == 0x205F || u == 0x3000
  }

  function StripLeft(s: string): string {
    if s != "" && IsSpace(s[0]) then StripLeft(s[1..]) else s
  }

  function StripRight(s: string): string {
    if s != "" && IsSpace(s[|s| - 1]) then StripRight(s[..|s| - 1]) else s
  }

  function Strip(s: string): string {
    StripRight(StripLeft(s))
  }

  predicate IsHexDigit(c: char) {
    '0' <= c <= '9' || 'a' <= c <= 'f' || 'A' <= c <= 'F'
  }

  function WithoutPrefix(raw: string): string {
    if StartsWith(raw, "@") then raw[1..] else if StartsWith(raw, "ref=") then raw[4..] else raw
  }

  function ParseRef(arg: string): Option<string> {
    var raw := WithoutPrefix(Strip(arg));
    if |raw| == 8 && (forall k :: 0 <= k < 8 ==> IsHexDigit(raw[k])) then Some(Lower(raw)) else None
  }

  /** A text without surrounding white space, or nothing when there is nothing else in it. */
  function Normalized(text: Option<string>): Option<string> {
    if Strip(OrEmpty(text)) != "" then Some(Strip(OrEmpty(text))) else None
  }

  /** The text of the first entry, in dictionary order, that stands directly below a noise line. */
  function ChildText(roles: Roles, ref: string, table: RefTable, n: nat): Option<string>
    requires n <= |table.order|
    decreases |table.order| - n
  {
    if n == |table.order| then None
    else
      var child := table.order[n];
      if child in table.data
         && table.data[child].parentRef == Some(ref)
         && (table.data[child].role in roles.textLeaf || table.data[child].role in roles.noise)
         && (Truthy(table.data[child].name) || Truthy(table.data[child].textContent))
      then
        Some(Strip(if Truthy(table.data[child].name) then OrEmpty(table.data[child].name)
                   else OrEmpty(table.data[child].textContent)))
      else ChildText(roles, ref, table, n + 1)
  }

  function BuildLocatorSpec(roles: Roles, arg: string, table: RefTable): Option<LocatorSpec> {
    match ParseRef(arg)
    case None => None
    case Some(ref) =>
      if ref !in table.data then None
      else
        var d := table.data[ref];
        var name, text := Normalized(d.name), Normalized(d.textContent);
        Some(LocatorSpec(ref, d.role, name, text, if name.Some? then name else text,
                         if d.role in roles.noise then ChildText(roles, ref, table, 0) else None,
                         d.nth, d.interactive, d.framePath))
  }

  /** What the truncated digest looks like: eight lower-case hexadecimal digits. */
  predicate IsRefText(ref: string) {
    |ref| == 8 && forall k :: 0 <= k < 8 ==> '0' <= ref[k] <= '9' || 'a' <= ref[k] <= 'f'
  }

  ghost predicate AllSpace(s: string) {
    forall k :: 0 <= k < |s| ==> IsSpace(s[k])
  }

  lemma {:induction false} StripLeftDrops(space: string, s: string)
    requires AllSpace(space)
    ensures StripLeft(space + s) == StripLeft(s)
  {
    if space == "" {
      assert space + s == s;
    } else {
      assert (space + s)[1..] == space[1..] + s;
      StripLeftDrops(space[1..], s);
    }
  }

  lemma {:induction false} StripRightDrops(s: string, space: string)
    requires AllSpace(space)
    ensures StripRight(s + space) == StripRight(s)
  {
    if space == "" {
      assert s + space == s;
    } else {
      assert (s + space)[..|s + space| - 1] == s + space[..|space| - 1];
      StripRightDrops(s, space[..|space| - 1]);
    }
  }

  lemma StripKeepsWords(before: string, word: string, after: string)
    requires AllSpace(before) && AllSpace(after)
    requires word != "" && !IsSpace(word[0]) && !IsSpace(word[|word| - 1])
    ensures Strip(before + word + after) == word
  {
    assert before + word + after == before + (word + after);
    StripLeftDrops(before, word + after);
    assert StripLeft(word + after) == word + after;
    StripRightDrops(word, after);
  }

  ghost predicate IsHexText(s: string) {
    |s| == 8 && forall k :: 0 <= k < 8 ==> IsHexDigit(s[k])
  }

  /** A ref is accepted bare, with `@` or with `ref=`, in either case, with or without white space around it. */
  lemma ParseRefForms(before: string, prefix: string, digits: string, after: string)
    requires AllSpace(before) && AllSpace(after) && prefix in {"", "@", "ref="} && IsHexText(digits)
    ensures ParseRef(before + prefix + digits + after) == Some(Lower(digits))
    ensures IsRefText(Lower(digits)) && (IsRefText(digits) ==> Lower(digits) == digits)
  {
    var word := prefix + digits;
    assert before + prefix + digits + after == before + word + after;
    assert word[|word| - 1] == digits[7];
    assert word[0] == if prefix == "" then digits[0] else prefix[0];
    StripKeepsWords(before, word, after);
    assert WithoutPrefix(word) == digits by {
      if prefix == "" {
        assert word == digits;
        assert digits[..1][0] == digits[0];
        assert digits[..4][0] == digits[0];
      } else {
        assert word[..|prefix|] == prefix;
        assert word[|prefix|..] == digits;
        if prefix == "ref=" {
          assert word[..1][0] == 'r';
        }
      }
    }
  }

  lemma {:induction false} StripLeftParts(s: string) returns (before: string)
    ensures AllSpace(before) && before + StripLeft(s) == s
  {
    before := "";
    if s != "" && IsSpace(s[0]) {
      var rest := StripLeftParts(s[1..]);
      before := [s[0]] + rest;
      assert s == [s[0]] + s[1..];
    }
  }

  lemma {:induction false} StripRightParts(s: string) returns (after: string)
    ensures AllSpace(after) && StripRight(s) + after == s
  {
    after := "";
    if s != "" && IsSpace(s[|s| - 1]) {
      var rest := StripRightParts(s[..|s| - 1]);
      after := rest + [s[|s| - 1]];
      assert s == s[..|s| - 1] + [s[|s| - 1]];
    }
  }

  /** Nothing else is accepted. */
  lemma OnlyRefsParse(arg: string) returns (before: string, prefix: string, digits: string, after: string)
    requires ParseRef(arg).Some?
    ensures AllSpace(before) && AllSpace(after) && prefix in {"", "@", "ref="} && IsHexText(digits)
    ensures arg == before + prefix + digits + after && ParseRef(arg) == Some(Lower(digits))
  {
    before := StripLeftParts(arg);
    after := StripRightParts(StripLeft(arg));
    var word := Strip(arg);
    digits := WithoutPrefix(word);
    prefix := if StartsWith(word, "@") then "@" else if StartsWith(word, "ref=") then "ref=" else "";
    assert word == prefix + digits;
    assert before + (word + after) == before + prefix + digits + after;
    hide StripLeft, StripRight;
  }

  /** Names and texts lose the white space around them, and count as missing when nothing else is left. */
  lemma NormalizedIs(before: string, word: string, after: string)
    requires AllSpace(before) && AllSpace(after)
    requires word != "" ==> !IsSpace(word[0]) && !IsSpace(word[|word| - 1])
    ensures Normalized(Some(before + word + after)) == if word == "" then None else Some(word)
    ensures Normalized(None) == None
  {
    if word == "" {
      assert before + word + after == before + after;
      StripLeftDrops(before, after);
      StripLeftDrops(after, "");
      assert after + "" == after;
    } else {
      StripKeepsWords(before, word, after);
    }
  }

  // ----- the text of a child

  /** Line j stands directly below line i, as refs go, is plain text or a mere grouping, and has something to show. */
  ghost predicate IsTextChild(lines: seq<Line>, cfg: Config, i: nat, j: nat)
    requires i < |lines| && HasRef(cfg, lines[i])
  {
    && j < |lines| && HasRef(cfg, lines[j]) && ParentRef(lines, cfg, j) == Some(RefAt(lines, cfg, i))
    && (Lower(lines[j].role) in cfg.roles.textLeaf || Lower(lines[j].role) in cfg.roles.noise)
    && (OrEmpty(lines[j].name) != "" || OrEmpty(lines[j].textContent) != "")
  }

  predicate IsChildEntry(roles: Roles, ref: string, table: RefTable, child: string) {
    && child in table.data && table.data[child].parentRef == Some(ref)
    && (table.data[child].role in roles.textLeaf || table.data[child].role in roles.noise)
    && (Truthy(table.data[child].name) || Truthy(table.data[child].textContent))
  }

  lemma {:induction false} ChildTextIsFirst(roles: Roles, ref: string, table: RefTable, n: nat, p: nat)
    requires n <= |table.order|
    requires p < |table.order| ==> n <= p && IsChildEntry(roles, ref, table, table.order[p])
    requires forall q :: n <= q < |table.order| && q < p ==> !IsChildEntry(roles, ref, table, table.order[q])
    ensures ChildText(roles, ref, table, n)
            == if p < |table.order| then
                 var d := table.data[table.order[p]];
                 Some(Strip(if OrEmpty(d.name) != "" then OrEmpty(d.name) else OrEmpty(d.textContent)))
               else None
    decreases |table.order| - n
  {
    hide Strip;
    if n < |table.order| && n != p {
      ChildTextIsFirst(roles, ref, table, n + 1, p);
    }
  }

  /** Where the dictionary lists item i, and that it lists nothing else. */
  lemma {:induction false} PlaceInOrder(items: seq<Option<RefData>>, i: nat, n: nat)
    requires i <= n <= |items|
    ensures |RefsInOrder(items, i)| <= |RefsInOrder(items, n)|
    ensures i < n && items[i].Some? ==>
              |RefsInOrder(items, i)| < |RefsInOrder(items, n)| && RefsInOrder(items, n)[|RefsInOrder(items, i)|] == items[i].value.ref
    decreases n
  {
    if i < n {
      PlaceInOrder(items, i, n - 1);
    }
  }

  lemma {:induction false} ItemAtPlace(items: seq<Option<RefData>>, p: nat, n: nat) returns (i: nat)
    requires n <= |items| && p < |RefsInOrder(items, n)|
    ensures i < n && items[i].Some? && items[i].value.ref == RefsInOrder(items, n)[p] && |RefsInOrder(items, i)| == p
    decreases n
  {
    if p < |RefsInOrder(items, n - 1)| {
      i := ItemAtPlace(items, p, n - 1);
    } else {
      i := n - 1;
    }
  }

  lemma ChildEntryIff(lines: seq<Line>, cfg: Config, i: nat, j: nat)
    requires RolesAreWords(lines) && HashSeparates(lines, cfg) && !EmptyNameBesideNone(lines, cfg)
    requires i < |lines| && HasRef(cfg, lines[i]) && j < |lines| && HasRef(cfg, lines[j])
    ensures IsChildEntry(cfg.roles, RefAt(lines, cfg, i), FinalRefs(lines, cfg), RefAt(lines, cfg, j))
            <==> IsTextChild(lines, cfg, i, j)
  {
    FinalTable(lines, cfg, j);
    hide RefAt, ParentRef, FinalRefs, FramePath, Nth, ShouldKeep, Lower;
  }

  /** A mere grouping is looked for by the text of the first line, in document order, that stands directly below it and is
      text or a grouping itself; there is none exactly if no such line exists. */
  lemma ChildTextIsTheFirst(lines: seq<Line>, cfg: Config, i: nat, j: nat)
    requires RolesAreWords(lines) && HashSeparates(lines, cfg) && !EmptyNameBesideNone(lines, cfg)
    requires i < |lines| && HasRef(cfg, lines[i])
    requires j < |lines| ==> IsTextChild(lines, cfg, i, j)
    requires forall k: nat :: k < j && k < |lines| ==> !IsTextChild(lines, cfg, i, k)
    ensures ChildText(cfg.roles, RefAt(lines, cfg, i), FinalRefs(lines, cfg), 0)
            == if j < |lines| then
                 Some(Strip(if OrEmpty(lines[j].name) != "" then OrEmpty(lines[j].name) else OrEmpty(lines[j].textContent)))
               else None
  {
    var table, items, ref := FinalRefs(lines, cfg), Items(lines, cfg), RefAt(lines, cfg, i);
    FinalTable(lines, cfg, i);
    hide RefAt, ParentRef, FinalRefs, FramePath, Nth, ShouldKeep, Strip, IsTextChild, IsChildEntry, ChildText, RefsInOrder;
    assert forall k: nat :: k < |lines| ==> items[k] == ItemAt(lines, cfg, k);
    var p := if j < |lines| then |RefsInOrder(items, j)| else |table.order|;
    if j < |lines| {
      assert HasRef(cfg, lines[j]) by { TextChildHasRef(lines, cfg, i, j); }
      PlaceInOrder(items, j, |lines|);
      FinalTable(lines, cfg, j);
      ChildEntryIff(lines, cfg, i, j);
    }
    forall q | 0 <= q < |table.order| && q < p
      ensures !IsChildEntry(cfg.roles, ref, table, table.order[q])
    {
      var k := ItemAtPlace(items, q, |lines|);
      if j < |lines| && k >= j {
        PlaceInOrder(items, j, k);
      }
      ChildEntryIff(lines, cfg, i, k);
    }
    ChildTextIsFirst(cfg.roles, ref, table, 0, p);
  }

  lemma TextChildHasRef(lines: seq<Line>, cfg: Config, i: nat, j: nat)
    requires i < |lines| && HasRef(cfg, lines[i]) && IsTextChild(lines, cfg, i, j)
    ensures j < |lines| && HasRef(cfg, lines[j])
  {
  }

  /** Every ref a snapshot hands out leads back to its own line, in every accepted spelling. */
  lemma RefsResolveToTheirLines(lines: seq<Line>, cfg: Config, i: nat, before: string, prefix: string, after: string)
    requires RolesAreWords(lines) && HashSeparates(lines, cfg) && !EmptyNameBesideNone(lines, cfg)
    requires i < |lines| && HasRef(cfg, lines[i]) && IsRefText(RefAt(lines, cfg, i))
    requires AllSpace(before) && AllSpace(after) && prefix in {"", "@", "ref="}
    ensures var spec := BuildLocatorSpec(cfg.roles, before + prefix + RefAt(lines, cfg, i) + after, FinalRefs(lines, cfg));
            && spec.Some?
            && spec.value.ref == RefAt(lines, cfg, i)
            && spec.value.role == Lower(lines[i].role)
            && spec.value.name == Normalized(lines[i].name)
            && spec.value.textContent == Normalized(lines[i].textContent)
            && spec.value.framePath == FramePath(lines, i)
            && spec.value.nth == (if Total(lines, cfg, KeyAt(lines, i)) == 1 then None else Some(Nth(lines, cfg, i)))
            && spec.value.interactive == (Lower(lines[i].role) in cfg.roles.interactive)
            && spec.value.matchText == (if Normalized(lines[i].name).Some? then Normalized(lines[i].name)
                                        else Normalized(lines[i].textContent))
            && spec.value.childText == (if Lower(lines[i].role) in cfg.roles.noise
                                        then ChildText(cfg.roles, RefAt(lines, cfg, i), FinalRefs(lines, cfg), 0) else None)
  {
    hide ShouldKeep, FramePath, Nth, ParentRef, ChildText, Normalized, Lower;
    ParseRefForms(before, prefix, RefAt(lines, cfg, i), after);
    FinalTable(lines, cfg, i);
  }

  /** Nothing else resolves: a locator always stands for a line of the snapshot. */
  lemma OnlyRefsResolve(lines: seq<Line>, cfg: Config, arg: string)
    requires BuildLocatorSpec(cfg.roles, arg, FinalRefs(lines, cfg)).Some?
    ensures RefOfSomeLine(lines, cfg, BuildLocatorSpec(cfg.roles, arg, FinalRefs(lines, cfg)).value.ref)
  {
    hide FinalRefs, RefOfSomeLine;
    OnlyLinesHaveRefs(lines, cfg, BuildLocatorSpec(cfg.roles, arg, FinalRefs(lines, cfg)).value.ref);
  }
}
