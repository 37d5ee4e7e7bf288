/**
 * The entry store: items indexed by their id (`indexById`), the merge that
 * `update` performs (new batch wins), and the `collection` view that lists
 * the stored entries in key order.
 */
module Store {

  import opened Params

  /** JavaScript coerces numeric ids to property names one-to-one, so ids are integers here. */
  type Id = int

  /** An application item; the store keeps it as it is (`markRaw`). */
  datatype Item = Item(id: Id, fields: map<string, Value>)

  /** The `entries` object: property name (id) to item. */
  type Entries = map<Id, Item>

  /** Every stored entry sits under its own id. */
  predicate WellIndexed(m: Entries)
  {
    forall k :: k in m ==> m[k].id == k
  }

  /** The ids a batch carries. */
  function Ids(items: seq<Item>): set<Id>
  {
    set i | i in items :: i.id
  }

  /** No two items of a batch share an id. */
  predicate DistinctIds(items: seq<Item>)
  {
    forall i, j :: 0 <= i < j < |items| ==> items[i].id != items[j].id
  }

  /**
   * `indexById`: one key per id in the batch, holding an item of the batch
   * with that id (items are assigned in order; nothing is claimed about which
   * of several items with the same id is kept).
   */
  function IndexById(items: seq<Item>): (m: Entries)
    ensures m.Keys == Ids(items)
    ensures forall k :: k in m ==> m[k].id == k && m[k] in items
    decreases |items|
  {
    if items == [] then map[]
    else
      var front, last := items[..|items| - 1], items[|items| - 1];
      assert items == front + [last];
      IndexById(front)[last.id := last]
  }

  /** `update`: `{ ...entries, ...indexById(items) }`, the batch overriding what was stored. */
  function Merge(m: Entries, items: seq<Item>): (r: Entries)
    ensures r.Keys == m.Keys + Ids(items)
    ensures forall k :: k in m && k !in Ids(items) ==> r[k] == m[k]
    ensures forall k :: k in Ids(items) ==> r[k].id == k && r[k] in items
  {
    m + IndexById(items)
  }

  /** When a batch has distinct ids, each of its items is what the merged store holds under its id. */
  lemma MergeStoresBatch(m: Entries, items: seq<Item>)
    requires DistinctIds(items)
    ensures forall i :: 0 <= i < |items| ==> items[i].id in Merge(m, items) && Merge(m, items)[items[i].id] == items[i]
  {
  }

  /** `update([])` changes nothing: merging never deletes. */
  lemma MergeEmpty(m: Entries)
    ensures Merge(m, []) == m
  {
  }

  /** Merging keeps every entry under its own id. */
  lemma MergeWellIndexed(m: Entries, items: seq<Item>)
    requires WellIndexed(m)
    ensures WellIndexed(Merge(m, items))
  {
  }

  /** Applying the same batch twice is the same as applying it once. */
  lemma MergeIdempotent(m: Entries, items: seq<Item>)
    ensures Merge(Merge(m, items), items) == Merge(m, items)
  {
  }

  /** `getById` after `update(items)`: present exactly when it was present before or the batch carries it. */
  lemma PresentAfterMerge(m: Entries, items: seq<Item>, id: Id)
    ensures id in Merge(m, items) <==> id in m || exists i :: 0 <= i < |items| && items[i].id == id
  {
  }

  /** The keys of a sequence. */
  function KeySet(keys: seq<Id>): set<Id>
  {
    set k | k in keys
  }

  /** No key is listed twice. */
  predicate DistinctKeys(keys: seq<Id>)
  {
    forall i, j :: 0 <= i < j < |keys| ==> keys[i] != keys[j]
  }

  /** `Object.keys(entries)`: every key of the store, each once, in some order. */
  predicate IsKeyOrder(m: Entries, keys: seq<Id>)
  {
    DistinctKeys(keys) && KeySet(keys) == m.Keys
  }

  /** The `collection` getter: the store's values, listed in the given key order. */
  function ValuesInOrder(m: Entries, keys: seq<Id>): seq<Item>
    requires forall i :: 0 <= i < |keys| ==> keys[i] in m
  {
    seq(|keys|, i requires 0 <= i < |keys| && keys[i] in m => m[keys[i]])
  }

  /** A duplicate-free list has as many elements as its set of elements. */
  lemma {:induction false} DistinctKeysCount(keys: seq<Id>)
    requires DistinctKeys(keys)
    ensures |KeySet(keys)| == |keys|
  {
    if keys != [] {
      var rest := keys[1..];
      assert DistinctKeys(rest);
      DistinctKeysCount(rest);
      assert KeySet(keys) == KeySet(rest) + {keys[0]};
      assert keys[0] !in KeySet(rest);
    }
  }

  /**
   * `collection` holds exactly one element per stored key, namely that key's
   * entry: as many elements as keys, no id twice, every stored id present,
   * and each element equal to the entry stored under its id.
   */
  lemma CollectionExact(m: Entries, keys: seq<Id>)
    requires WellIndexed(m) && IsKeyOrder(m, keys)
    ensures |ValuesInOrder(m, keys)| == |m|
    ensures DistinctIds(ValuesInOrder(m, keys))
    ensures Ids(ValuesInOrder(m, keys)) == m.Keys
    ensures forall i :: 0 <= i < |ValuesInOrder(m, keys)| ==>
              var e := ValuesInOrder(m, keys)[i]; e.id in m && m[e.id] == e
  {
    var r := ValuesInOrder(m, keys);
    DistinctKeysCount(keys);
    assert |m| == |m.Keys|;
    forall i | 0 <= i < |r| ensures r[i].id == keys[i] {
    }
    forall k | k in m.Keys ensures k in Ids(r) {
      assert k in KeySet(keys);
      var i :| 0 <= i < |keys| && keys[i] == k;
      assert r[i] in r;
    }
  }

}
