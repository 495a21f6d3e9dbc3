/** The dictionary of refs that a snapshot builds, and what dropping occurrence numbers does to it
    (refs/models.py, refs/generator.py:344, 376-383). */
module RefTables {
  import opened Options

  datatype Key = Key(role: string, name: Option<string>, path: seq<nat>)

  datatype RefData = RefData(ref: string, role: string, name: Option<string>, nth: Option<nat>,
                             textContent: Option<string>, interactive: bool, parentRef: Option<string>,
                             framePath: seq<nat>, playwrightRef: Option<string>)
  {
    function RefKey(): Key {
      Key(role, name, framePath)
    }
  }

  /** A Python dictionary from refs to data: `order` lists the keys as first inserted. */
  datatype RefTable = RefTable(data: map<string, RefData>, order: seq<string>)
  {
    function Put(d: RefData): RefTable {
      RefTable(data[d.ref := d], if d.ref in data then order else order + [d.ref])
    }
  }

  /** A dictionary lists each of its keys once. */
  ghost predicate DictOrder(table: RefTable) {
    && (forall r :: r in table.data <==> r in table.order)
    && forall p, q :: 0 <= p < q < |table.order| ==> table.order[p] != table.order[q]
  }

  /** The table after storing the first n items; some lines have nothing to store. */
  ghost function Tabulated(items: seq<Option<RefData>>, n: nat): RefTable
    requires n <= |items|
  {
    if n == 0 then RefTable(map[], [])
    else if items[n - 1].Some? then Tabulated(items, n - 1).Put(items[n - 1].value)
    else Tabulated(items, n - 1)
  }

  /** The refs whose entry has this key. */
  function SameKey(data: map<string, RefData>, key: Key): set<string> {
    set r | r in data && data[r].RefKey() == key
  }

  /** An occurrence number is dropped when no other entry shares its key. */
  function Deduplicated(table: RefTable): RefTable {
    RefTable(map r | r in table.data :: DataWithoutNth(table.data, r), table.order)
  }

  function DataWithoutNth(data: map<string, RefData>, r: string): RefData
    requires r in data
  {
    if |SameKey(data, data[r].RefKey())| == 1 then data[r].(nth := None) else data[r]
  }

  ghost predicate Distinct(items: seq<Option<RefData>>) {
    forall i, j :: 0 <= i < j < |items| && items[i].Some? && items[j].Some? ==> items[i].value.ref != items[j].value.ref
  }

  ghost predicate Stored(items: seq<Option<RefData>>, n: nat, ref: string)
    requires n <= |items|
  {
    exists i :: 0 <= i < n && items[i].Some? && items[i].value.ref == ref
  }

  /** The refs of the first n items in order. */
  ghost function RefsInOrder(items: seq<Option<RefData>>, n: nat): seq<string>
    requires n <= |items|
  {
    if n == 0 then []
    else RefsInOrder(items, n - 1) + if items[n - 1].Some? then [items[n - 1].value.ref] else []
  }

  ghost function CountKey(items: seq<Option<RefData>>, key: Key, n: nat): nat
    requires n <= |items|
  {
    if n == 0 then 0
    else CountKey(items, key, n - 1) + if items[n - 1].Some? && items[n - 1].value.RefKey() == key then 1 else 0
  }

  lemma PutKeepsDictOrder(table: RefTable, d: RefData)
    requires DictOrder(table)
    ensures DictOrder(table.Put(d))
  {
    var after := table.Put(d);
    forall r ensures r in after.data <==> r in after.order {
    }
  }

  lemma {:induction false} TabulatedRefs(items: seq<Option<RefData>>, n: nat)
    requires n <= |items|
    ensures forall ref :: ref in Tabulated(items, n).data <==> Stored(items, n, ref)
  {
    if n > 0 {
      TabulatedRefs(items, n - 1);
      forall ref ensures ref in Tabulated(items, n).data <==> Stored(items, n, ref) {
        assert Stored(items, n, ref) <==>
               Stored(items, n - 1, ref) || (items[n - 1].Some? && items[n - 1].value.ref == ref);
      }
    }
  }

  lemma {:induction false} TabulatedEntry(items: seq<Option<RefData>>, n: nat, i: nat)
    requires i < n <= |items| && items[i].Some? && Distinct(items)
    ensures items[i].value.ref in Tabulated(items, n).data
    ensures Tabulated(items, n).data[items[i].value.ref] == items[i].value
  {
    if i < n - 1 {
      TabulatedEntry(items, n - 1, i);
    }
  }

  lemma {:induction false} TabulatedOrder(items: seq<Option<RefData>>, n: nat)
    requires n <= |items| && Distinct(items)
    ensures Tabulated(items, n).order == RefsInOrder(items, n)
  {
    if n > 0 {
      TabulatedOrder(items, n - 1);
      TabulatedRefs(items, n - 1);
    }
  }

  lemma SameKeyAfterPut(table: RefTable, d: RefData, key: Key)
    requires d.ref !in table.data
    ensures |SameKey(table.Put(d).data, key)| == |SameKey(table.data, key)| + if d.RefKey() == key then 1 else 0
  {
    if d.RefKey() == key {
      assert SameKey(table.Put(d).data, key) == SameKey(table.data, key) + {d.ref};
    } else {
      assert SameKey(table.Put(d).data, key) == SameKey(table.data, key);
    }
  }

  lemma {:induction false} KeyCounts(items: seq<Option<RefData>>, key: Key, n: nat)
    requires n <= |items| && Distinct(items)
    ensures |SameKey(Tabulated(items, n).data, key)| == CountKey(items, key, n)
  {
    if n > 0 {
      KeyCounts(items, key, n - 1);
      TabulatedRefs(items, n - 1);
      if items[n - 1].Some? {
        SameKeyAfterPut(Tabulated(items, n - 1), items[n - 1].value, key);
      }
    }
  }

  /** With distinct refs the final table holds every item under its own ref, in order, and an occurrence
      number goes exactly when the item is alone with its key. */
  lemma FinalEntry(items: seq<Option<RefData>>, i: nat)
    requires i < |items| && items[i].Some? && Distinct(items)
    ensures var table := Deduplicated(Tabulated(items, |items|));
            var d := items[i].value;
            && d.ref in table.data
            && table.data[d.ref] == (if CountKey(items, d.RefKey(), |items|) == 1 then d.(nth := None) else d)
            && table.order == RefsInOrder(items, |items|)
  {
    TabulatedEntry(items, |items|, i);
    TabulatedOrder(items, |items|);
    KeyCounts(items, items[i].value.RefKey(), |items|);
  }

  // ----- the two loops at the end of the generator

  ghost function KeyAmong(data: map<string, RefData>, key: Key, refs: seq<string>): set<string> {
    set r | r in refs && r in data && data[r].RefKey() == key
  }

  lemma OneMoreRef(data: map<string, RefData>, key: Key, refs: seq<string>, r: string)
    requires r in data && r !in refs
    ensures |KeyAmong(data, key, refs + [r])| == |KeyAmong(data, key, refs)| + if data[r].RefKey() == key then 1 else 0
  {
    if data[r].RefKey() == key {
      assert KeyAmong(data, key, refs + [r]) == KeyAmong(data, key, refs) + {r};
    } else {
      assert KeyAmong(data, key, refs + [r]) == KeyAmong(data, key, refs);
    }
  }

  ghost predicate CountsAre(data: map<string, RefData>, counts: map<Key, nat>, refs: seq<string>) {
    forall key: Key :: (if key in counts then counts[key] else 0) == |KeyAmong(data, key, refs)|
  }

  lemma CountOneMore(data: map<string, RefData>, counts: map<Key, nat>, refs: seq<string>, r: string)
    requires r in data && r !in refs && CountsAre(data, counts, refs)
    ensures var key := data[r].RefKey();
            CountsAre(data, counts[key := (if key in counts then counts[key] else 0) + 1], refs + [r])
  {
    hide KeyAmong;
    forall key: Key {
      OneMoreRef(data, key, refs, r);
    }
  }

  method CountKeys(table: RefTable) returns (counts: map<Key, nat>)
    requires DictOrder(table)
    ensures forall key: Key :: (if key in counts then counts[key] else 0) == |SameKey(table.data, key)|
  {
    counts := map[];
    for n := 0 to |table.order|
      invariant CountsAre(table.data, counts, table.order[..n])
    {
      var r := table.order[n];
      assert table.order[..n + 1] == table.order[..n] + [r];
      CountOneMore(table.data, counts, table.order[..n], r);
      var key := table.data[r].RefKey();
      counts := counts[key := (if key in counts then counts[key] else 0) + 1];
    }
    assert table.order[..|table.order|] == table.order;
    AllAmong(table);
  }

  lemma AllAmong(table: RefTable)
    requires DictOrder(table)
    ensures forall key: Key :: KeyAmong(table.data, key, table.order) == SameKey(table.data, key)
  {
  }

  /** The table when the first n refs have been looked at. */
  ghost predicate PartlyDeduplicated(table: RefTable, data: map<string, RefData>, n: nat)
    requires n <= |table.order|
  {
    && data.Keys == table.data.Keys
    && (forall r :: r in table.data ==>
                      data[r] == if r in table.order[..n] then DataWithoutNth(table.data, r) else table.data[r])
  }

  lemma NothingDeduplicated(table: RefTable)
    ensures PartlyDeduplicated(table, table.data, 0)
  {
  }

  lemma DeduplicateOne(table: RefTable, data: map<string, RefData>, n: nat)
    requires DictOrder(table) && n < |table.order| && PartlyDeduplicated(table, data, n)
    ensures var r := table.order[n];
            r in data && data[r] == table.data[r]
            && PartlyDeduplicated(table, data[r := DataWithoutNth(table.data, r)], n + 1)
  {
    hide DataWithoutNth;
    var r := table.order[n];
    assert r in table.order;
    assert table.order[..n + 1] == table.order[..n] + [r];
  }

  lemma Finished(table: RefTable, data: map<string, RefData>)
    requires DictOrder(table) && PartlyDeduplicated(table, data, |table.order|)
    ensures RefTable(data, table.order) == Deduplicated(table)
  {
    hide DataWithoutNth;
    assert table.order[..|table.order|] == table.order;
  }

  method Deduplicate(table: RefTable) returns (out: RefTable)
    requires DictOrder(table)
    ensures out == Deduplicated(table)
  {
    hide Deduplicated, SameKey, PartlyDeduplicated;
    var counts := CountKeys(table);
    var data := table.data;
    NothingDeduplicated(table);
    for n := 0 to |table.order|
      invariant PartlyDeduplicated(table, data, n)
    {
      DeduplicateOne(table, data, n);
      var r := table.order[n];
      var key := data[r].RefKey();
      if key in counts && counts[key] == 1 {
        data := data[r := data[r].(nth := None)];
      } else {
        assert data == data[r := data[r]];
      }
    }
    Finished(table, data);
    out := RefTable(data, table.order);
  }
}
