/** Saving an inventory, cart or storage: rows already in the table are matched with the items to
    save, so that only what differs is written. */
module ItemSave {

  // ----- items and tables

  const MAX_SLOTS := 4
  const MAX_ITEM_RDM_OPT := 5

  datatype RandomOption = RandomOption(id: int, value: int, param: int)

  type Cards = s: seq<int> | |s| == MAX_SLOTS witness [0, 0, 0, 0]
  type Options = s: seq<RandomOption> | |s| == MAX_ITEM_RDM_OPT
    witness [RandomOption(0, 0, 0), RandomOption(0, 0, 0), RandomOption(0, 0, 0), RandomOption(0, 0, 0), RandomOption(0, 0, 0)]

  /** The fields of `struct item` that are saved; `nameid` 0 is an empty slot. */
  datatype Item = Item(nameid: int, amount: int, equip: int, identify: int, refine: int, attribute: int, cards: Cards,
                       expireTime: int, favorite: int, bound: int, uniqueId: int, options: Options)

  datatype StorageType = Inventory | Cart | Storage | GuildStorage

  datatype Row = Row(owner: int, item: Item)

  type Rows = map<nat, Row>

  /** Only the inventory table has a column for `favorite`. */
  function Columns(table: StorageType, x: Item): Item {
    if table == Inventory then x else x.(favorite := 0)
  }

  /** What must agree for a row and an item to count as the same item; the second card is not looked at. */
  datatype Key = Key(nameid: int, card0: int, card2: int, card3: int, uniqueId: int)

  function KeyOf(x: Item): Key {
    Key(x.nameid, x.cards[0], x.cards[2], x.cards[3], x.uniqueId)
  }

  predicate SameItem(x: Item, y: Item) {
    x.nameid == y.nameid && x.cards[0] == y.cards[0] && x.cards[2] == y.cards[2] && x.cards[3] == y.cards[3] && x.uniqueId == y.uniqueId
  }

  lemma SameKey(x: Item, y: Item)
    ensures KeyOf(x) == KeyOf(y) <==> SameItem(x, y)
  {}

  /** Two items that a table stores alike: field by field, and `favorite` only in the inventory. */
  predicate StoredAlike(table: StorageType, x: Item, y: Item) {
    && x.nameid == y.nameid && x.amount == y.amount && x.equip == y.equip && x.identify == y.identify
    && x.refine == y.refine && x.attribute == y.attribute && x.cards == y.cards && x.expireTime == y.expireTime
    && x.bound == y.bound && x.uniqueId == y.uniqueId && x.options == y.options
    && (table == Inventory ==> x.favorite == y.favorite)
  }

  lemma ColumnsAlike(table: StorageType, x: Item, y: Item)
    ensures Columns(table, x) == Columns(table, y) <==> StoredAlike(table, x, y)
  {}

  /** Which of the fields a multiset of items is compared by: the columns of a table, or the key. */
  function ByColumns(table: StorageType): Item -> Item { (x: Item) => Columns(table, x) }

  function ByKey(): Item -> Key { (x: Item) => KeyOf(x) }

  /** `f` looks only at columns of the table. */
  ghost predicate Respects<T(!new)>(table: StorageType, f: Item -> T) {
    forall x :: f(Columns(table, x)) == f(x)
  }

  // ----- multisets of rows and of items

  function Owned(rows: Rows, owner: int): set<nat> {
    set k | k in rows && rows[k].owner == owner
  }

  ghost function Gather<T>(rows: Rows, ids: set<nat>, f: Item -> T): multiset<T>
    requires ids <= rows.Keys
  {
    if ids == {} then multiset{}
    else
      var k :| k in ids;
      Gather(rows, ids - {k}, f) + multiset{f(rows[k].item)}
  }

  lemma {:induction false} GatherOut<T>(rows: Rows, ids: set<nat>, k: nat, f: Item -> T)
    requires ids <= rows.Keys && k in ids
    ensures Gather(rows, ids, f) == Gather(rows, ids - {k}, f) + multiset{f(rows[k].item)}
    decreases |ids|
  {
    var j :| j in ids && Gather(rows, ids, f) == Gather(rows, ids - {j}, f) + multiset{f(rows[j].item)};
    if j != k {
      GatherOut(rows, ids - {j}, k, f);
      GatherOut(rows, ids - {k}, j, f);
      assert ids - {j} - {k} == ids - {k} - {j};
    }
  }

  lemma {:induction false} GatherFrame<T>(rows: Rows, rows': Rows, ids: set<nat>, f: Item -> T)
    requires ids <= rows.Keys && ids <= rows'.Keys
    requires forall k | k in ids :: f(rows[k].item) == f(rows'[k].item)
    ensures Gather(rows, ids, f) == Gather(rows', ids, f)
    decreases |ids|
  {
    if ids != {} {
      var k :| k in ids;
      GatherFrame(rows, rows', ids - {k}, f);
      GatherOut(rows, ids, k, f);
      GatherOut(rows', ids, k, f);
    }
  }

  lemma GatherInsert<T>(rows: Rows, k: nat, row: Row, f: Item -> T)
    requires k !in rows
    ensures Gather(rows[k := row], Owned(rows[k := row], row.owner), f) ==
            Gather(rows, Owned(rows, row.owner), f) + multiset{f(row.item)}
  {
    hide Gather;
    var rows' := rows[k := row];
    assert Owned(rows', row.owner) - {k} == Owned(rows, row.owner);
    GatherOut(rows', Owned(rows', row.owner), k, f);
    GatherFrame(rows, rows', Owned(rows, row.owner), f);
  }

  /** The chosen items. */
  function Pick<T>(items: seq<Item>, chosen: seq<bool>, f: Item -> T): multiset<T>
    requires |items| == |chosen|
  {
    if items == [] then multiset{}
    else
      var n := |items| - 1;
      Pick(items[..n], chosen[..n], f) + (if chosen[n] then multiset{f(items[n])} else multiset{})
  }

  function All(n: nat): (r: seq<bool>)
    ensures |r| == n
  {
    seq(n, i => true)
  }

  lemma PickNone<T>(f: Item -> T)
    ensures Pick([], [], f) == multiset{}
  {}

  lemma PickLast<T>(items: seq<Item>, chosen: seq<bool>, older: seq<bool>, f: Item -> T)
    requires |items| == |chosen| > 0 && older == chosen[..|items| - 1]
    ensures Pick(items, chosen, f) ==
            Pick(items[..|items| - 1], older, f) + (if chosen[|items| - 1] then multiset{f(items[|items| - 1])} else multiset{})
  {}

  lemma {:induction false} PickOneMore<T>(items: seq<Item>, chosen: seq<bool>, i: nat, f: Item -> T)
    requires |items| == |chosen| && i < |items| && !chosen[i]
    ensures Pick(items, chosen[i := true], f) == Pick(items, chosen, f) + multiset{f(items[i])}
  {
    var n := |items| - 1;
    if i == n {
      assert chosen[i := true][..n] == chosen[..n];
    } else {
      PickOneMore(items[..n], chosen[..n], i, f);
      assert chosen[i := true][..n] == chosen[..n][i := true];
    }
  }

  lemma {:induction false} PickHas<T>(items: seq<Item>, chosen: seq<bool>, x: T, f: Item -> T)
    requires |items| == |chosen|
    ensures x in Pick(items, chosen, f) <==> exists i | 0 <= i < |items| :: chosen[i] && f(items[i]) == x
  {
    if items != [] {
      var n := |items| - 1;
      PickHas(items[..n], chosen[..n], x, f);
      if exists i | 0 <= i < |items| :: chosen[i] && f(items[i]) == x {
        var i :| 0 <= i < |items| && chosen[i] && f(items[i]) == x;
        if i < n { assert chosen[..n][i] && f(items[..n][i]) == x; }
      }
    }
  }

  /** The occupied slots, and those of them not yet flagged. */
  function Occupied(items: seq<Item>): (r: seq<bool>)
    ensures |r| == |items|
  {
    seq(|items|, i requires 0 <= i < |items| => items[i].nameid != 0)
  }

  function Free(items: seq<Item>, flag: seq<bool>): (r: seq<bool>)
    requires |items| == |flag|
    ensures |r| == |items|
  {
    seq(|items|, i requires 0 <= i < |items| => items[i].nameid != 0 && !flag[i])
  }

  predicate FlagsOccupied(items: seq<Item>, flag: seq<bool>)
    requires |items| == |flag|
  {
    forall i | 0 <= i < |items| && flag[i] :: items[i].nameid != 0
  }

  lemma {:induction false} FlaggedAndFree<T>(items: seq<Item>, flag: seq<bool>, f: Item -> T)
    requires |items| == |flag| && FlagsOccupied(items, flag)
    ensures Pick(items, Occupied(items), f) == Pick(items, flag, f) + Pick(items, Free(items, flag), f)
  {
    hide Pick;
    if items == [] {
      PickNone(f);
    } else {
      var n := |items| - 1;
      FlaggedAndFree(items[..n], flag[..n], f);
      PickLast(items, Occupied(items), Occupied(items[..n]), f);
      PickLast(items, flag, flag[..n], f);
      PickLast(items, Free(items, flag), Free(items[..n], flag[..n]), f);
    }
  }

  // ----- counting

  ghost function RowsWith<T>(rows: Rows, ids: set<nat>, f: Item -> T, y: T): set<nat>
    requires ids <= rows.Keys
  {
    set k | k in ids && f(rows[k].item) == y
  }

  ghost function SlotsWith<T>(items: seq<Item>, chosen: seq<bool>, f: Item -> T, y: T): set<nat>
    requires |items| == |chosen|
  {
    set i: nat | i < |items| && chosen[i] && f(items[i]) == y
  }

  lemma {:induction false} GatherCounts<T>(rows: Rows, ids: set<nat>, f: Item -> T, y: T)
    requires ids <= rows.Keys
    ensures Gather(rows, ids, f)[y] == |RowsWith(rows, ids, f, y)|
  {
    hide Gather, RowsWith;
    if ids == {} {
      GatherNone(rows, f);
      NoRowsWith(rows, f, y);
    } else {
      var k :| k in ids;
      GatherOut(rows, ids, k, f);
      GatherCounts(rows, ids - {k}, f, y);
      RowsOut(rows, ids, k, f, y);
    }
  }

  lemma NoRowsWith<T>(rows: Rows, f: Item -> T, y: T)
    ensures RowsWith(rows, {}, f, y) == {}
  {}

  lemma RowsOut<T>(rows: Rows, ids: set<nat>, k: nat, f: Item -> T, y: T)
    requires ids <= rows.Keys && k in ids
    ensures |RowsWith(rows, ids, f, y)| == |RowsWith(rows, ids - {k}, f, y)| + (if f(rows[k].item) == y then 1 else 0)
  {
    var older := RowsWith(rows, ids - {k}, f, y);
    assert RowsWith(rows, ids, f, y) == if f(rows[k].item) == y then older + {k} else older;
  }

  lemma {:induction false} PickCounts<T>(items: seq<Item>, chosen: seq<bool>, f: Item -> T, y: T)
    requires |items| == |chosen|
    ensures Pick(items, chosen, f)[y] == |SlotsWith(items, chosen, f, y)|
  {
    hide Pick;
    if items == [] {
      PickNone(f);
      assert SlotsWith(items, chosen, f, y) == {};
    } else {
      var n := |items| - 1;
      PickCounts(items[..n], chosen[..n], f, y);
      PickLast(items, chosen, chosen[..n], f);
      SlotsLast(items, chosen, f, y);
    }
  }

  lemma SlotsLast<T>(items: seq<Item>, chosen: seq<bool>, f: Item -> T, y: T)
    requires |items| == |chosen| > 0
    ensures
      var n := |items| - 1;
      |SlotsWith(items, chosen, f, y)| == |SlotsWith(items[..n], chosen[..n], f, y)| + (if chosen[n] && f(items[n]) == y then 1 else 0)
  {
    var n := |items| - 1;
    var older := SlotsWith(items[..n], chosen[..n], f, y);
    assert SlotsWith(items, chosen, f, y) == if chosen[n] && f(items[n]) == y then older + {n} else older;
  }

  /** The rows of an owner, and the occupied slots, that hold an item stored like `y`. */
  ghost function RowsLike(table: StorageType, rows: Rows, owner: int, y: Item): set<nat> {
    set k | k in rows && rows[k].owner == owner && StoredAlike(table, rows[k].item, y)
  }

  ghost function SlotsLike(table: StorageType, items: seq<Item>, y: Item): set<nat> {
    set i: nat | i < |items| && items[i].nameid != 0 && StoredAlike(table, items[i], y)
  }

  /** Whatever item one looks for, the owner has as many rows of it as there are slots with it. */
  ghost predicate Stores(table: StorageType, rows: Rows, owner: int, items: seq<Item>) {
    forall y :: |RowsLike(table, rows, owner, y)| == |SlotsLike(table, items, y)|
  }

  lemma StoresWanted(table: StorageType, rows: Rows, owner: int, items: seq<Item>)
    requires Gather(rows, Owned(rows, owner), ByColumns(table)) == Wanted(items, ByColumns(table))
    ensures Stores(table, rows, owner, items)
  {
    hide Gather, Pick;
    forall y ensures |RowsLike(table, rows, owner, y)| == |SlotsLike(table, items, y)| {
      var f, c := ByColumns(table), Columns(table, y);
      GatherCounts(rows, Owned(rows, owner), f, c);
      PickCounts(items, Occupied(items), f, c);
      SameSets(table, rows, owner, items, y);
    }
  }

  lemma SameSets(table: StorageType, rows: Rows, owner: int, items: seq<Item>, y: Item)
    ensures RowsWith(rows, Owned(rows, owner), ByColumns(table), Columns(table, y)) == RowsLike(table, rows, owner, y)
    ensures SlotsWith(items, Occupied(items), ByColumns(table), Columns(table, y)) == SlotsLike(table, items, y)
  {
    hide StoredAlike, Columns;
    forall k | k in rows ensures Columns(table, rows[k].item) == Columns(table, y) <==> StoredAlike(table, rows[k].item, y) {
      ColumnsAlike(table, rows[k].item, y);
    }
    forall i | 0 <= i < |items| ensures Columns(table, items[i]) == Columns(table, y) <==> StoredAlike(table, items[i], y) {
      ColumnsAlike(table, items[i], y);
    }
  }

  /** What a save must leave in the table, compared by `f`. */
  function Wanted<T>(items: seq<Item>, f: Item -> T): multiset<T> {
    Pick(items, Occupied(items), f)
  }

  // ----- the simple way: delete everything, insert everything

  /** Rows for all items of a list, under fresh ids. */
  function Inserted(rows: Rows, nextId: nat, owner: int, table: StorageType, values: seq<Item>): Rows {
    if values == [] then rows
    else
      var n := |values| - 1;
      Inserted(rows, nextId, owner, table, values[..n])[nextId + n := Row(owner, Columns(table, values[n]))]
  }

  /** The items of the chosen slots, in order. */
  function Chosen(items: seq<Item>, chosen: seq<bool>): seq<Item>
    requires |items| == |chosen|
  {
    if items == [] then []
    else
      var n := |items| - 1;
      Chosen(items[..n], chosen[..n]) + (if chosen[n] then [items[n]] else [])
  }

  function Cleared(rows: Rows, owner: int): Rows {
    map k | k in rows && rows[k].owner != owner :: rows[k]
  }

  function Replaced(rows: Rows, nextId: nat, owner: int, table: StorageType, items: seq<Item>): Rows {
    Inserted(Cleared(rows, owner), nextId, owner, table, Chosen(items, Occupied(items)))
  }

  predicate IdsBelow(rows: Rows, nextId: nat) { forall k | k in rows :: k < nextId }

  /** Rows of other owners are the same in both tables. */
  ghost predicate OthersKept(rows: Rows, rows': Rows, owner: int) {
    forall k | k in rows || k in rows' ::
      (k in rows && rows[k].owner != owner) || (k in rows' && rows'[k].owner != owner) ==>
        k in rows && k in rows' && rows[k] == rows'[k]
  }

  lemma {:induction false} InsertedRows(rows: Rows, nextId: nat, owner: int, table: StorageType, values: seq<Item>)
    requires IdsBelow(rows, nextId)
    ensures
      var rows' := Inserted(rows, nextId, owner, table, values);
      IdsBelow(rows', nextId + |values|) && OthersKept(rows, rows', owner)
  {
    if values != [] { InsertedRows(rows, nextId, owner, table, values[..|values| - 1]); }
  }

  /** Inserting adds exactly the listed items to the owner's rows. */
  lemma {:induction false} InsertedContents<T(!new)>(rows: Rows, nextId: nat, owner: int, table: StorageType, values: seq<Item>, f: Item -> T)
    requires IdsBelow(rows, nextId) && Respects(table, f)
    ensures
      var rows' := Inserted(rows, nextId, owner, table, values);
      Gather(rows', Owned(rows', owner), f) == Gather(rows, Owned(rows, owner), f) + Pick(values, All(|values|), f)
  {
    hide Pick, Gather, Owned;
    if values == [] {
      PickNone(f);
    } else {
      var n := |values| - 1;
      var older := Inserted(rows, nextId, owner, table, values[..n]);
      InsertedContents(rows, nextId, owner, table, values[..n], f);
      InsertedRows(rows, nextId, owner, table, values[..n]);
      assert nextId + n !in older;
      PickLast(values, All(|values|), All(n), f);
      GatherInsert(older, nextId + n, Row(owner, Columns(table, values[n])), f);
    }
  }

  lemma {:induction false} ChosenPick<T>(items: seq<Item>, chosen: seq<bool>, f: Item -> T)
    requires |items| == |chosen|
    ensures
      var values := Chosen(items, chosen);
      Pick(values, All(|values|), f) == Pick(items, chosen, f)
  {
    hide Pick;
    if items == [] {
      PickNone(f);
    } else {
      var n := |items| - 1;
      ChosenPick(items[..n], chosen[..n], f);
      PickLast(items, chosen, chosen[..n], f);
      var values := Chosen(items, chosen);
      if chosen[n] {
        assert values[..|values| - 1] == Chosen(items[..n], chosen[..n]);
        PickLast(values, All(|values|), All(|values| - 1), f);
      } else {
        assert values == Chosen(items[..n], chosen[..n]);
      }
    }
  }

  /** Deleting and inserting everything stores exactly the occupied slots and leaves other owners alone. */
  lemma ReplacedContents<T(!new)>(rows: Rows, nextId: nat, owner: int, table: StorageType, items: seq<Item>, f: Item -> T)
    requires IdsBelow(rows, nextId) && Respects(table, f)
    ensures
      var rows' := Replaced(rows, nextId, owner, table, items);
      OthersKept(rows, rows', owner) && Gather(rows', Owned(rows', owner), f) == Wanted(items, f)
  {
    hide Inserted, Chosen, Occupied, Pick;
    var cleared, values := Cleared(rows, owner), Chosen(items, Occupied(items));
    assert Owned(cleared, owner) == {};
    InsertedRows(cleared, nextId, owner, table, values);
    assert OthersKept(rows, Replaced(rows, nextId, owner, table, items), owner);
    hide OthersKept, Respects, IdsBelow, Cleared;
    InsertedContents(cleared, nextId, owner, table, values, f);
    ChosenPick(items, Occupied(items), f);
  }

  /** Counted field by field, the simple way stores the occupied slots. */
  lemma ReplacedStores(rows: Rows, nextId: nat, owner: int, table: StorageType, items: seq<Item>)
    requires IdsBelow(rows, nextId)
    ensures
      var rows' := Replaced(rows, nextId, owner, table, items);
      OthersKept(rows, rows', owner) && Stores(table, rows', owner, items)
  {
    MatchedKeysAgree(table);
    hide Replaced, OthersKept, Gather, Wanted, Respects, Stores;
    ReplacedContents(rows, nextId, owner, table, items, ByColumns(table));
    StoresWanted(table, Replaced(rows, nextId, owner, table, items), owner, items);
  }

  // ----- keeping the table and the flags in step

  /** The owner's rows are those dealt with and those still to come, and the ones dealt with hold the flagged items. */
  ghost predicate Synced<T>(rows: Rows, owner: int, kept: set<nat>, pending: set<nat>, items: seq<Item>, flag: seq<bool>, f: Item -> T) {
    && |items| == |flag| && kept !! pending && kept + pending == Owned(rows, owner)
    && Gather(rows, kept, f) == Pick(items, flag, f)
  }

  /** Flagging an item whose contents row `id` now holds. */
  lemma SyncMatched<T>(rows: Rows, rows': Rows, owner: int, kept: set<nat>, pending: set<nat>, id: nat, items: seq<Item>, flag: seq<bool>, i: nat, f: Item -> T)
    requires Synced(rows, owner, kept, pending, items, flag, f) && id in pending
    requires rows'.Keys == rows.Keys && (forall k | k in rows && k != id :: rows'[k] == rows[k])
    requires rows'[id].owner == owner && i < |items| && !flag[i] && f(rows'[id].item) == f(items[i])
    ensures Synced(rows', owner, kept + {id}, pending - {id}, items, flag[i := true], f)
  {
    hide Gather, Pick;
    assert Owned(rows', owner) == Owned(rows, owner);
    assert kept + {id} - {id} == kept;
    GatherOut(rows', kept + {id}, id, f);
    GatherFrame(rows, rows', kept, f);
    PickOneMore(items, flag, i, f);
  }

  lemma SyncDeleted<T>(rows: Rows, owner: int, kept: set<nat>, pending: set<nat>, id: nat, items: seq<Item>, flag: seq<bool>, f: Item -> T)
    requires Synced(rows, owner, kept, pending, items, flag, f) && id in pending
    ensures Synced(rows - {id}, owner, kept, pending - {id}, items, flag, f)
  {
    hide Gather, Pick;
    assert Owned(rows - {id}, owner) == Owned(rows, owner) - {id};
    GatherFrame(rows, rows - {id}, kept, f);
  }

  /** Among rows with keys `seen`, as many are matched as both sides allow. */
  ghost predicate Greedy(items: seq<Item>, flag: seq<bool>, seen: multiset<Key>) {
    |items| == |flag| && FlagsOccupied(items, flag) && Pick(items, flag, ByKey()) == seen * Wanted(items, ByKey())
  }

  lemma GreedyMatched(items: seq<Item>, flag: seq<bool>, seen: multiset<Key>, i: nat)
    requires Greedy(items, flag, seen) && i < |items| && items[i].nameid != 0 && !flag[i]
    ensures Greedy(items, flag[i := true], seen + multiset{KeyOf(items[i])})
    ensures seen + multiset{KeyOf(items[i])} - Wanted(items, ByKey()) == seen - Wanted(items, ByKey())
  {
    hide Pick, Wanted;
    var k := KeyOf(items[i]);
    FreeLeft(items, flag, k);
    assert Free(items, flag)[i];
    PickOneMore(items, flag, i, ByKey());
  }

  lemma GreedyUnmatched(items: seq<Item>, flag: seq<bool>, seen: multiset<Key>, k: Key)
    requires Greedy(items, flag, seen)
    requires forall i | 0 <= i < |items| :: items[i].nameid != 0 && !flag[i] ==> KeyOf(items[i]) != k
    ensures Greedy(items, flag, seen + multiset{k})
    ensures seen + multiset{k} - Wanted(items, ByKey()) == seen - Wanted(items, ByKey()) + multiset{k}
  {
    hide Pick, Wanted;
    FreeLeft(items, flag, k);
  }

  /** An unflagged item with key `k` remains exactly when fewer are flagged than wanted. */
  lemma FreeLeft(items: seq<Item>, flag: seq<bool>, k: Key)
    requires |items| == |flag| && FlagsOccupied(items, flag)
    ensures
      (exists i | 0 <= i < |items| :: Free(items, flag)[i] && KeyOf(items[i]) == k)
      <==> Pick(items, flag, ByKey())[k] < Wanted(items, ByKey())[k]
  {
    hide Pick;
    FlaggedAndFree(items, flag, ByKey());
    PickHas(items, Free(items, flag), k, ByKey());
    assert k in Pick(items, Free(items, flag), ByKey()) <==> Pick(items, Free(items, flag), ByKey())[k] > 0;
    assert forall i | 0 <= i < |items| :: ByKey()(items[i]) == KeyOf(items[i]);
  }

  lemma MatchedKeysAgree(table: StorageType)
    ensures Respects(table, ByKey()) && Respects(table, ByColumns(table))
  {}

  // ----- the table and the save

  /** Only row `id` may differ between the two tables. */
  ghost predicate OnlyRow(before: Rows, after: Rows, id: nat) {
    after.Keys - {id} == before.Keys - {id} && forall k | k in before && k != id :: k in after && after[k] == before[k]
  }

  lemma OthersStep(first: Rows, before: Rows, after: Rows, id: nat, owner: int)
    requires OthersKept(first, before, owner) && OnlyRow(before, after, id)
    requires id in first && first[id].owner == owner
    requires id in after ==> after[id].owner == owner
    ensures OthersKept(first, after, owner)
  {
    forall k | k in first || k in after
      ensures (k in first && first[k].owner != owner) || (k in after && after[k].owner != owner) ==>
                k in first && k in after && first[k] == after[k]
    {
      assert k != id ==> (k in after <==> k in before) by { assert k != id ==> (k in after.Keys - {id} <==> k in before.Keys - {id}); }
    }
  }

  lemma OthersTwice(a: Rows, b: Rows, c: Rows, owner: int)
    requires OthersKept(a, b, owner) && OthersKept(b, c, owner)
    ensures OthersKept(a, c, owner)
  {}

  class ItemTable {
    const table: StorageType
    var rows: Rows
    var nextId: nat
    /** The keys of the rows named in DELETE statements and of the items listed in INSERT statements. */
    ghost var deleted: multiset<Key>
    ghost var inserted: multiset<Key>
    /** How many UPDATE statements were issued. */
    ghost var updates: nat

    ghost predicate Valid()
      reads this
    {
      IdsBelow(rows, nextId)
    }

    ghost function Stock<T>(owner: int, f: Item -> T): multiset<T>
      reads this
    {
      Gather(rows, Owned(rows, owner), f)
    }

    /** UPDATE of every column but `nameid`; any statement may fail. */
    method Update(id: nat, x: Item) returns (ok: bool)
      requires Valid() && id in rows
      modifies this`rows, this`updates
      ensures updates == old(updates) + 1
      ensures ok ==> rows == old(rows)[id := Row(old(rows)[id].owner, Columns(table, x).(nameid := old(rows)[id].item.nameid))]
      ensures !ok ==> rows == old(rows)
    {
      ok, updates := *, updates + 1;
      if ok { rows := rows[id := Row(rows[id].owner, Columns(table, x).(nameid := rows[id].item.nameid))]; }
    }

    method Delete(id: nat) returns (ok: bool)
      requires Valid() && id in rows
      modifies this`rows, this`deleted
      ensures rows == if ok then old(rows) - {id} else old(rows)
      ensures deleted == old(deleted) + multiset{KeyOf(old(rows)[id].item)}
    {
      ok := *;
      deleted := deleted + multiset{KeyOf(rows[id].item)};
      if ok { rows := rows - {id}; }
    }

    method Insert(owner: int, values: seq<Item>) returns (ok: bool)
      requires Valid()
      modifies this
      ensures Valid()
      ensures rows == if ok then Inserted(old(rows), old(nextId), owner, table, values) else old(rows)
      ensures deleted == old(deleted) && inserted == old(inserted) + Pick(values, All(|values|), ByKey())
    {
      ok := *;
      inserted := inserted + Pick(values, All(|values|), ByKey());
      if ok {
        InsertedRows(rows, nextId, owner, table, values);
        rows, nextId := Inserted(rows, nextId, owner, table, values), nextId + |values|;
      }
    }

    /** One fetched row: its item is found among those not yet flagged and updated where it differs,
        or the row is deleted. */
    method SaveRow(items: seq<Item>, flag: array<bool>, owner: int, id: nat, row: Item,
                   ghost seen: multiset<Key>, ghost base: multiset<Key>, ghost kept: set<nat>, ghost pending: set<nat>)
      returns (errors: nat, ghost kept': set<nat>)
      requires Valid() && id in rows && rows[id] == Row(owner, row) && id in pending
      requires flag.Length == |items| && Greedy(items, flag[..], seen) && deleted == base + (seen - Wanted(items, ByKey()))
      modifies this`rows, this`deleted, this`updates, flag
      ensures if flag[..] == old(flag[..]) then updates == old(updates)
              else exists i | 0 <= i < |items| ::
                && SameItem(items[i], row) && flag[..] == old(flag[..])[i := true]
                && updates == old(updates) + if StoredAlike(table, items[i], row) then 0 else 1
      ensures Valid() && OnlyRow(old(rows), rows, id) && (id in rows ==> rows[id].owner == owner)
      ensures Greedy(items, flag[..], seen + multiset{KeyOf(row)})
      ensures deleted == base + (seen + multiset{KeyOf(row)} - Wanted(items, ByKey()))
      ensures errors == 0 && Synced(old(rows), owner, kept, pending, items, old(flag[..]), ByColumns(table)) ==>
                Synced(rows, owner, kept', pending - {id}, items, flag[..], ByColumns(table))
      ensures errors == 0 && Synced(old(rows), owner, kept, pending, items, old(flag[..]), ByKey()) ==>
                Synced(rows, owner, kept', pending - {id}, items, flag[..], ByKey())
    {
      hide Synced, Greedy, Wanted, Pick, StoredAlike, SameItem;
      errors, kept' := 0, kept;
      var i := FindSame(items, flag, row);
      if i < |items| {
        SameKey(items[i], row);
        ColumnsAlike(table, items[i], row);
        if !StoredAlike(table, items[i], row) {
          var ok := Update(id, items[i]);
          if !ok { errors := 1; }
        }
        GreedyMatched(items, flag[..], seen, i);
        if errors == 0 {
          MatchedIs(old(rows), rows, owner, kept, pending, id, items, flag[..], i, table);
        }
        flag[i] := true;
        assert flag[..] == old(flag[..])[i := true];
        kept' := kept + {id};
      } else {
        var ok := Delete(id);
        if !ok { errors := 1; }
        forall j | 0 <= j < |items| ensures KeyOf(items[j]) == KeyOf(row) <==> SameItem(items[j], row) { SameKey(items[j], row); }
        GreedyUnmatched(items, flag[..], seen, KeyOf(row));
        if errors == 0 {
          DeletedIs(old(rows), owner, kept, pending, id, items, flag[..], table);
        }
      }
    }

    method FindSame(items: seq<Item>, flag: array<bool>, row: Item) returns (i: nat)
      requires flag.Length == |items|
      ensures i <= |items|
      ensures i < |items| ==> items[i].nameid != 0 && !flag[i] && SameItem(items[i], row)
      ensures forall j | 0 <= j < i :: items[j].nameid != 0 && !flag[j] ==> !SameItem(items[j], row)
    {
      i := 0;
      while i < |items|
        invariant i <= |items|
        invariant forall j | 0 <= j < i :: items[j].nameid != 0 && !flag[j] ==> !SameItem(items[j], row)
      {
        if items[i].nameid != 0 && !flag[i] && SameItem(items[i], row) { return; }
        i := i + 1;
      }
    }

    /** The loop over the fetched rows, which arrive in any order. */
    method SaveRows(items: seq<Item>, flag: array<bool>, owner: int)
      returns (errors: nat, ghost kept: set<nat>, ghost seen: multiset<Key>)
      requires Valid() && flag.Length == |items| && forall i | 0 <= i < |items| :: !flag[i]
      modifies this`rows, this`deleted, this`updates, flag
      ensures Valid() && OthersKept(old(rows), rows, owner)
      ensures seen == old(Stock(owner, ByKey())) && Greedy(items, flag[..], seen)
      ensures deleted == old(deleted) + (seen - Wanted(items, ByKey()))
      ensures errors == 0 ==> Synced(rows, owner, kept, {}, items, flag[..], ByColumns(table))
      ensures errors == 0 ==> Synced(rows, owner, kept, {}, items, flag[..], ByKey())
    {
      hide Synced, Greedy, Wanted, Pick, Gather, OthersKept;
      errors, kept, seen := 0, {}, multiset{};
      var snapshot, pending := rows, Owned(rows, owner);
      StartsSynced(rows, owner, items, flag[..], table);
      OthersSame(rows, owner);
      while pending != {}
        invariant Valid() && pending <= Owned(snapshot, owner) && OthersKept(snapshot, rows, owner)
        invariant forall k | k in pending :: k in rows && rows[k] == snapshot[k]
        invariant Greedy(items, flag[..], seen) && deleted == old(deleted) + (seen - Wanted(items, ByKey()))
        invariant seen + Gather(snapshot, pending, ByKey()) == old(Stock(owner, ByKey()))
        invariant errors == 0 ==> Synced(rows, owner, kept, pending, items, flag[..], ByColumns(table))
        invariant errors == 0 ==> Synced(rows, owner, kept, pending, items, flag[..], ByKey())
        decreases |pending|
      {
        var id :| id in pending;
        var row := snapshot[id].item;
        ghost var before := rows;
        var failed;
        GatherOut(snapshot, pending, id, ByKey());
        failed, kept := SaveRow(items, flag, owner, id, row, seen, old(deleted), kept, pending);
        OthersStep(snapshot, before, rows, id, owner);
        errors := errors + failed;
        seen := seen + multiset{KeyOf(row)};
        pending := pending - {id};
      }
      GatherNone(snapshot, ByKey());
    }

    /** `char_memitemdata_to_sql`; `errors` counts failed statements.  Without errors the owner's rows
        are those that deleting and inserting everything would store; per key only the surplus rows are
        deleted and only the surplus items inserted. */
    method Save(items: seq<Item>, owner: int) returns (errors: nat)
      requires Valid()
      modifies this
      ensures Valid() && OthersKept(old(rows), rows, owner)
      ensures errors == 0 ==> Stores(table, rows, owner, items)
      ensures errors == 0 ==> Stock(owner, ByColumns(table)) == Wanted(items, ByColumns(table))
      ensures errors == 0 ==>
                var simple := Replaced(old(rows), old(nextId), owner, table, items);
                Stock(owner, ByColumns(table)) == Gather(simple, Owned(simple, owner), ByColumns(table))
      ensures errors == 0 ==> Stock(owner, ByKey()) == Wanted(items, ByKey())
      ensures
        || (errors == 1 && rows == old(rows) && deleted == old(deleted) && inserted == old(inserted))
        || (deleted == old(deleted) + (old(Stock(owner, ByKey())) - Wanted(items, ByKey())) &&
            inserted == old(inserted) + (Wanted(items, ByKey()) - old(Stock(owner, ByKey()))))
    {
      hide Synced, Greedy, Wanted, Pick, Gather, OthersKept, Respects, Inserted, Chosen, Free, IdsBelow, Replaced, Stores;
      MatchedKeysAgree(table);
      ReplacedContents(rows, nextId, owner, table, items, ByColumns(table));
      var selected := *;
      if !selected {
        OthersSame(rows, owner);
        return 1;
      }
      var flag := new bool[|items|](i => false);
      ghost var kept, seen;
      errors, kept, seen := SaveRows(items, flag, owner);
      FreeKeys(items, flag[..], seen);
      var values := Chosen(items, Free(items, flag[..]));
      ghost var before := rows;
      InsertedRows(rows, nextId, owner, table, values);
      if errors == 0 {
        FreeStock(rows, nextId, owner, kept, items, flag[..], table, ByColumns(table));
        FreeStock(rows, nextId, owner, kept, items, flag[..], table, ByKey());
        StoresWanted(table, Inserted(rows, nextId, owner, table, values), owner, items);
      }
      if values != [] {
        var ok := Insert(owner, values);
        if !ok { errors := errors + 1; }
      } else {
        InsertedNothing(rows, nextId, owner, table);
      }
      OthersSame(before, owner);
      OthersTwice(old(rows), before, rows, owner);
    }

    /** Saving the same items again after a save without errors deletes and inserts nothing. */
    method SaveTwice(items: seq<Item>, owner: int) returns (first: nat, second: nat)
      requires Valid()
      modifies this
      ensures Valid() && OthersKept(old(rows), rows, owner)
      ensures first == 0 ==>
                && deleted == old(deleted) + (old(Stock(owner, ByKey())) - Wanted(items, ByKey()))
                && inserted == old(inserted) + (Wanted(items, ByKey()) - old(Stock(owner, ByKey())))
    {
      hide Wanted, Gather, OthersKept, Replaced, Owned;
      first := Save(items, owner);
      ghost var middle := rows;
      second := Save(items, owner);
      OthersTwice(old(rows), middle, rows, owner);
    }
  }

  lemma OthersSame(rows: Rows, owner: int)
    ensures OthersKept(rows, rows, owner)
  {}

  lemma InsertedNothing(rows: Rows, nextId: nat, owner: int, table: StorageType)
    ensures Inserted(rows, nextId, owner, table, []) == rows && Pick([], All(0), ByKey()) == multiset{}
  {}

  lemma GatherNone<T>(rows: Rows, f: Item -> T)
    ensures Gather(rows, {}, f) == multiset{}
  {}

  /** Inserting the items left free completes the owner's rows. */
  lemma FreeStock<T(!new)>(rows: Rows, nextId: nat, owner: int, kept: set<nat>, items: seq<Item>, flag: seq<bool>, table: StorageType, f: Item -> T)
    requires IdsBelow(rows, nextId) && Respects(table, f)
    requires Synced(rows, owner, kept, {}, items, flag, f) && FlagsOccupied(items, flag)
    ensures
      var rows' := Inserted(rows, nextId, owner, table, Chosen(items, Free(items, flag)));
      Gather(rows', Owned(rows', owner), f) == Wanted(items, f)
  {
    hide Gather, Pick, Inserted, Chosen;
    assert kept + {} == kept;
    InsertedContents(rows, nextId, owner, table, Chosen(items, Free(items, flag)), f);
    ChosenPick(items, Free(items, flag), f);
    FlaggedAndFree(items, flag, f);
  }

  lemma FreeKeys(items: seq<Item>, flag: seq<bool>, seen: multiset<Key>)
    requires Greedy(items, flag, seen)
    ensures
      var values := Chosen(items, Free(items, flag));
      Pick(values, All(|values|), ByKey()) == Wanted(items, ByKey()) - seen
    ensures FlagsOccupied(items, flag)
  {
    hide Pick;
    ChosenPick(items, Free(items, flag), ByKey());
    FlaggedAndFree(items, flag, ByKey());
  }

  lemma StartsSynced(rows: Rows, owner: int, items: seq<Item>, flag: seq<bool>, table: StorageType)
    requires |items| == |flag| && forall i | 0 <= i < |items| :: !flag[i]
    ensures Greedy(items, flag, multiset{})
    ensures Synced(rows, owner, {}, Owned(rows, owner), items, flag, ByColumns(table))
    ensures Synced(rows, owner, {}, Owned(rows, owner), items, flag, ByKey())
  {
    PickNothing(items, flag, ByColumns(table));
    PickNothing(items, flag, ByKey());
  }

  lemma {:induction false} PickNothing<T>(items: seq<Item>, flag: seq<bool>, f: Item -> T)
    requires |items| == |flag| && forall i | 0 <= i < |items| :: !flag[i]
    ensures Pick(items, flag, f) == multiset{}
  {
    if items != [] { PickNothing(items[..|items| - 1], flag[..|items| - 1], f); }
  }

  lemma MatchedIs(rows: Rows, rows': Rows, owner: int, kept: set<nat>, pending: set<nat>, id: nat, items: seq<Item>, flag: seq<bool>, i: nat, table: StorageType)
    requires id in pending && id in rows && rows[id].owner == owner
    requires |items| == |flag| && i < |items| && !flag[i] && KeyOf(rows[id].item) == KeyOf(items[i])
    requires rows'.Keys == rows.Keys && (forall k | k in rows && k != id :: rows'[k] == rows[k])
    requires rows'[id].owner == owner && Columns(table, rows'[id].item) == Columns(table, items[i])
    ensures
      Synced(rows, owner, kept, pending, items, flag, ByColumns(table)) ==>
        Synced(rows', owner, kept + {id}, pending - {id}, items, flag[i := true], ByColumns(table))
    ensures
      Synced(rows, owner, kept, pending, items, flag, ByKey()) ==>
        Synced(rows', owner, kept + {id}, pending - {id}, items, flag[i := true], ByKey())
  {
    hide Synced;
    if Synced(rows, owner, kept, pending, items, flag, ByColumns(table)) {
      SyncMatched(rows, rows', owner, kept, pending, id, items, flag, i, ByColumns(table));
    }
    if Synced(rows, owner, kept, pending, items, flag, ByKey()) {
      SyncMatched(rows, rows', owner, kept, pending, id, items, flag, i, ByKey());
    }
  }

  lemma DeletedIs(rows: Rows, owner: int, kept: set<nat>, pending: set<nat>, id: nat, items: seq<Item>, flag: seq<bool>, table: StorageType)
    requires id in pending
    ensures
      Synced(rows, owner, kept, pending, items, flag, ByColumns(table)) ==>
        Synced(rows - {id}, owner, kept, pending - {id}, items, flag, ByColumns(table))
    ensures
      Synced(rows, owner, kept, pending, items, flag, ByKey()) ==>
        Synced(rows - {id}, owner, kept, pending - {id}, items, flag, ByKey())
  {
    hide Synced;
    if Synced(rows, owner, kept, pending, items, flag, ByColumns(table)) {
      SyncDeleted(rows, owner, kept, pending, id, items, flag, ByColumns(table));
    }
    if Synced(rows, owner, kept, pending, items, flag, ByKey()) {
      SyncDeleted(rows, owner, kept, pending, id, items, flag, ByKey());
    }
  }
}
