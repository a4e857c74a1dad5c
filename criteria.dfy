/** The `uniqueCriteria` reduce that the bar chart and the pie charts both
    run (client/src/components/graphs.tsx, lines 33-42, and
    client/src/components/charts.tsx, lines 18-27, the same code): every
    criterion item is filed under its normalised name, and each name
    accumulates the sum of the scores, the sum of the maxima and a count. */
module Criteria {
  import opened Text
  import opened Keys

  /** One criterion item, with its scores already read as numbers. */
  datatype Criterion = Criterion(criteria: string, scored: real, total: real)

  /** The accumulator record `{ scored, total, count }` of one name. */
  datatype Tally = Tally(scored: real, total: real, count: nat)

  /** The accumulator object: its keys in insertion order and its records. */
  datatype Tallies = Tallies(keys: seq<string>, entries: map<string, Tally>)

  const Empty: Tallies := Tallies([], map[])

  /** Keys listed once each, exactly the keys holding a record, and every
      record counting at least one item. */
  ghost predicate Valid(acc: Tallies)
  {
    && NoDup(acc.keys)
    && (forall k :: k in acc.entries <==> k in acc.keys)
    && (forall k :: k in acc.entries ==> acc.entries[k].count >= 1)
  }

  /** `curr.criteria.replace(':', '').trim()`: the FIRST colon, wherever it
      is, is removed, then the result is trimmed. */
  function NormalizeKey(name: string): (k: string)
    ensures IsTrimmed(k)
    ensures ':' !in name ==> k == Trim(name)
  {
    Trim(RemoveFirst(name, ':'))
  }

  /** Normalising a key again changes nothing once no colon is left in it. */
  lemma NormalizeIdempotent(name: string)
    requires ':' !in NormalizeKey(name)
    ensures NormalizeKey(NormalizeKey(name)) == NormalizeKey(name)
  {
  }

  /** Only the first colon goes: a name with two colons keeps the second. */
  lemma NormalizeKeepsSecondColon(name: string, i: nat)
    requires i < |name| && name[i] == ':' && ':' in name[..i]
    ensures ':' in NormalizeKey(name)
  {
    var j := IndexOfChar(name, ':').value;
    assert j < i;
    var s := RemoveFirst(name, ':');
    assert s == name[..j] + name[j + 1..];
    assert s[i - 1] == ':';
    TrimKeeps(s);
  }

  /** An item paired with the key it is filed under. */
  datatype Filed = Filed(key: string, item: Criterion)

  /** Line 35: the key of every item, computed from its label. */
  function Keyed(items: seq<Criterion>): (r: seq<Filed>)
    ensures |r| == |items|
  {
    seq(|items|, i requires 0 <= i < |items| => Filed(NormalizeKey(items[i].criteria), items[i]))
  }

  /** The record a key holds so far; a key not yet seen starts at zero
      (line 36). */
  function Current(acc: Tallies, key: string): (r: Tally)
    ensures key in acc.entries ==> r == acc.entries[key]
    ensures key !in acc.entries ==> r.scored == 0.0 && r.total == 0.0 && r.count == 0
  {
    if key in acc.entries then acc.entries[key] else Tally(0.0, 0.0, 0)
  }

  /** Lines 37-39: the item's score and maximum are added, the count goes up. */
  function Bump(t: Tally, c: Criterion): (r: Tally)
    ensures r.count == t.count + 1 && r.count >= 1
    ensures r.scored - t.scored == c.scored && r.total - t.total == c.total
  {
    Tally(t.scored + c.scored, t.total + c.total, t.count + 1)
  }

  /** Lines 36-40: one item filed under its key; a new key goes last. Only
      the item's own key changes: its record is bumped by the item. */
  function FileUnder(acc: Tallies, f: Filed): (r: Tallies)
    ensures f.key in r.entries && Current(r, f.key) == Bump(Current(acc, f.key), f.item)
    ensures forall k :: k != f.key ==> (k in r.entries <==> k in acc.entries) && Current(r, k) == Current(acc, k)
    ensures f.key !in acc.keys ==> r.keys == acc.keys + [f.key]
    ensures f.key in acc.keys ==> r.keys == acc.keys
  {
    Tallies(Insert(acc.keys, f.key), acc.entries[f.key := Bump(Current(acc, f.key), f.item)])
  }

  /** The reduce over items already paired with their keys: there are no
      more keys than items, and at least one once there is an item. */
  function FoldFiled(fs: seq<Filed>): (r: Tallies)
    ensures |r.keys| <= |fs|
    ensures fs != [] ==> |r.keys| >= 1
  {
    if fs == [] then Empty else FileUnder(FoldFiled(fs[..|fs| - 1]), fs[|fs| - 1])
  }

  /** Lines 33-42: the reduce over the items, from the empty object; the
      result is a well-formed accumulator. */
  function Fold(items: seq<Criterion>): (r: Tallies)
    ensures Valid(r)
  {
    FoldValid(Keyed(items));
    FoldFiled(Keyed(items))
  }

  /** Filing an item keeps every key listed once and holding a record. */
  lemma FileUnderValid(acc: Tallies, f: Filed)
    requires Valid(acc)
    ensures Valid(FileUnder(acc, f))
  {
  }

  /** Filing an item touches its own key's record and no other. */
  lemma FileUnderEntries(acc: Tallies, f: Filed, k: string)
    ensures k in FileUnder(acc, f).entries <==> k in acc.entries || k == f.key
    ensures k in FileUnder(acc, f).entries && k != f.key ==>
              FileUnder(acc, f).entries[k] == acc.entries[k]
    ensures Current(FileUnder(acc, f), k) == if k == f.key then Bump(Current(acc, k), f.item) else Current(acc, k)
  {
  }

  /** The accumulator stays well formed over the whole reduce. */
  lemma {:induction false} FoldValid(fs: seq<Filed>)
    ensures Valid(FoldFiled(fs))
  {
    if fs != [] {
      FoldValid(fs[..|fs| - 1]);
      FileUnderValid(FoldFiled(fs[..|fs| - 1]), fs[|fs| - 1]);
    }
  }

  /** Lines 36-40 as the source performs them on the accumulator object:
      create the zero record if the key is new, then bump its three fields
      one by one. */
  method FileInPlace(keys: seq<string>, entries: map<string, Tally>, key: string, c: Criterion)
    returns (keys': seq<string>, entries': map<string, Tally>)
    requires forall k :: k in entries <==> k in keys
    ensures Tallies(keys', entries') == FileUnder(Tallies(keys, entries), Filed(key, c))
  {
    keys', entries' := keys, entries;
    if key !in entries' {
      entries' := entries'[key := Tally(0.0, 0.0, 0)];
      keys' := keys' + [key];
    }
    var t := entries'[key];
    entries' := entries'[key := t.(scored := t.scored + c.scored)];
    t := entries'[key];
    entries' := entries'[key := t.(total := t.total + c.total)];
    t := entries'[key];
    entries' := entries'[key := t.(count := t.count + 1)];
  }

  /** One more item extends the reduce by one filing of that item under its
      normalised key, on a well-formed accumulator. */
  lemma FoldStep(items: seq<Criterion>, i: nat, acc: Tallies)
    requires i < |items| && acc == FoldFiled(Keyed(items)[..i])
    ensures forall k :: k in acc.entries <==> k in acc.keys
    ensures FoldFiled(Keyed(items)[..i + 1])
         == FileUnder(acc, Filed(NormalizeKey(items[i].criteria), items[i]))
  {
    var fs := Keyed(items);
    FoldValid(fs[..i]);
    FoldPrefixStep(fs, i);
    assert fs[i] == Filed(NormalizeKey(items[i].criteria), items[i]);
  }

  /** The reduce over one more keyed item is one more filing. */
  lemma FoldPrefixStep(fs: seq<Filed>, i: nat)
    requires i < |fs|
    ensures FoldFiled(fs[..i + 1]) == FileUnder(FoldFiled(fs[..i]), fs[i])
  {
    assert fs[..i + 1][..i] == fs[..i];
  }

  /** The reduce as the source runs it: one in-place update of the
      accumulator per item. */
  method Aggregate(items: seq<Criterion>) returns (acc: Tallies)
    ensures acc == Fold(items)
  {
    var keys: seq<string> := [];
    var entries: map<string, Tally> := map[];
    var i := 0;
    while i < |items|
      invariant 0 <= i <= |items|
      invariant Tallies(keys, entries) == FoldFiled(Keyed(items)[..i])
    {
      FoldStep(items, i, Tallies(keys, entries));
      var key := NormalizeKey(items[i].criteria);
      keys, entries := FileInPlace(keys, entries, key, items[i]);
      i := i + 1;
    }
    assert Keyed(items)[..i] == Keyed(items);
    acc := Tallies(keys, entries);
  }

  /** Reference definitions read off the keyed items alone. */

  /** The key of every item, in input order. */
  function KeysOf(fs: seq<Filed>): (r: seq<string>)
    ensures |r| == |fs|
  {
    if fs == [] then [] else KeysOf(fs[..|fs| - 1]) + [fs[|fs| - 1].key]
  }

  /** How many items have key `k`. */
  function CountKey(fs: seq<Filed>, k: string): nat
  {
    if fs == [] then 0
    else CountKey(fs[..|fs| - 1], k) + (if fs[|fs| - 1].key == k then 1 else 0)
  }

  /** The sum of the scores of the items with key `k`. */
  function SumScored(fs: seq<Filed>, k: string): real
  {
    if fs == [] then 0.0
    else SumScored(fs[..|fs| - 1], k) + (if fs[|fs| - 1].key == k then fs[|fs| - 1].item.scored else 0.0)
  }

  /** The sum of the maxima of the items with key `k`. */
  function SumTotal(fs: seq<Filed>, k: string): real
  {
    if fs == [] then 0.0
    else SumTotal(fs[..|fs| - 1], k) + (if fs[|fs| - 1].key == k then fs[|fs| - 1].item.total else 0.0)
  }

  /** The labels are the distinct keys, each once, in first-appearance order. */
  lemma {:induction false} FoldKeys(fs: seq<Filed>)
    ensures InFirstAppearanceOrder(FoldFiled(fs).keys, KeysOf(fs))
  {
    if fs != [] {
      var prefix := fs[..|fs| - 1];
      FoldKeys(prefix);
      InsertKeepsOrder(FoldFiled(prefix).keys, KeysOf(prefix), fs[|fs| - 1].key);
    }
  }

  /** A key holds a record exactly when some item has it. */
  lemma {:induction false} FoldHas(fs: seq<Filed>, k: string)
    ensures k in FoldFiled(fs).entries <==> CountKey(fs, k) >= 1
  {
    if fs != [] {
      var prefix := fs[..|fs| - 1];
      FoldHas(prefix, k);
      FileUnderEntries(FoldFiled(prefix), fs[|fs| - 1], k);
    }
  }

  /** Lines 36-40: the record of a key holds the sum of the scores, the sum
      of the maxima and the number of exactly the items with that key (a key
      no item has reads as all zeros). */
  lemma {:induction false} FoldEntry(fs: seq<Filed>, k: string)
    ensures Current(FoldFiled(fs), k) == Tally(SumScored(fs, k), SumTotal(fs, k), CountKey(fs, k))
  {
    if fs != [] {
      var prefix := fs[..|fs| - 1];
      FoldEntry(prefix, k);
      FileUnderEntries(FoldFiled(prefix), fs[|fs| - 1], k);
    }
  }

  /** The sum of the counts over a list of keys. */
  function CountSum(keys: seq<string>, entries: map<string, Tally>): nat
    requires forall k :: k in keys ==> k in entries
  {
    if keys == [] then 0 else CountSum(keys[..|keys| - 1], entries) + entries[keys[|keys| - 1]].count
  }

  /** Changing one record leaves the sum of the other keys' counts alone. */
  lemma {:induction false} CountSumOther(keys: seq<string>, entries: map<string, Tally>, key: string, t: Tally)
    requires forall k :: k in keys ==> k in entries
    requires key !in keys
    ensures CountSum(keys, entries[key := t]) == CountSum(keys, entries)
  {
    if keys != [] {
      CountSumOther(keys[..|keys| - 1], entries, key, t);
    }
  }

  /** One more on the count of a listed key adds one to the sum. */
  lemma {:induction false} CountSumBump(keys: seq<string>, entries: map<string, Tally>, key: string, t: Tally)
    requires forall k :: k in keys ==> k in entries
    requires NoDup(keys) && key in keys && t.count == entries[key].count + 1
    ensures CountSum(keys, entries[key := t]) == CountSum(keys, entries) + 1
  {
    var prefix := keys[..|keys| - 1];
    var last := keys[|keys| - 1];
    if last == key {
      assert key !in prefix by {
        forall j | 0 <= j < |prefix| ensures prefix[j] != key {
          assert prefix[j] == keys[j];
        }
      }
      CountSumOther(prefix, entries, key, t);
    } else {
      assert key in prefix by {
        var j :| 0 <= j < |keys| && keys[j] == key;
        assert j < |keys| - 1 && prefix[j] == key;
      }
      CountSumBump(prefix, entries, key, t);
    }
  }

  /** A new key listed last adds its count to the sum. */
  lemma CountSumAppend(keys: seq<string>, entries: map<string, Tally>, key: string, t: Tally)
    requires forall k :: k in keys ==> k in entries
    requires key !in keys
    ensures CountSum(keys + [key], entries[key := t]) == CountSum(keys, entries) + t.count
  {
    CountSumOther(keys, entries, key, t);
    assert (keys + [key])[..|keys|] == keys;
  }

  /** Filing one item adds one to the sum of the counts. */
  lemma CountSumFileUnder(acc: Tallies, f: Filed)
    requires Valid(acc)
    ensures Valid(FileUnder(acc, f))
    ensures CountSum(FileUnder(acc, f).keys, FileUnder(acc, f).entries) == CountSum(acc.keys, acc.entries) + 1
  {
    FileUnderValid(acc, f);
    var t := Bump(Current(acc, f.key), f.item);
    if f.key in acc.keys {
      CountSumBump(acc.keys, acc.entries, f.key, t);
    } else {
      CountSumAppend(acc.keys, acc.entries, f.key, t);
    }
  }

  /** The counts over all labels add up to the number of items. */
  lemma {:induction false} CountsCoverItems(fs: seq<Filed>)
    ensures Valid(FoldFiled(fs))
    ensures CountSum(FoldFiled(fs).keys, FoldFiled(fs).entries) == |fs|
  {
    if fs != [] {
      var prefix := fs[..|fs| - 1];
      CountsCoverItems(prefix);
      CountSumFileUnder(FoldFiled(prefix), fs[|fs| - 1]);
    }
  }
}
