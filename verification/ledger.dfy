/**
 * `inventories` (src/stores/bankStore.js:47, 80-82, 114-116, 130, 136):
 * per character an item-count map keyed by the captured id string and a
 * money total in copper. The character keys are letters only, so the
 * JavaScript object keeps them in insertion order; `order` records it.
 */
module Ledger {
  import opened Wrappers

  /** One character's `{ items, money }`. */
  datatype Entry = Entry(items: map<string, nat>, money: nat)

  /** The `{ items: {}, money: 0 }` a character starts with. */
  const EmptyEntry := Entry(map[], 0)

  /** The entries by name, and the names in the order they were added. */
  datatype Ledger = Ledger(order: seq<string>, entries: map<string, Entry>)

  const EmptyLedger := Ledger([], map[])

  /** `order` lists every name of `entries` exactly once. */
  predicate WellFormed(l: Ledger) {
    && (forall i, j | 0 <= i < j < |l.order| :: l.order[i] != l.order[j])
    && (forall n | n in l.entries :: n in l.order)
    && (forall k | 0 <= k < |l.order| :: l.order[k] in l.entries)
  }

  /** `inventories[name].items[id] || 0` */
  function Count(l: Ledger, name: string, id: string): nat {
    if name in l.entries && id in l.entries[name].items then l.entries[name].items[id] else 0
  }

  /** `id` is a key of the named character's item map. */
  predicate Holds(l: Ledger, name: string, id: string) {
    name in l.entries && id in l.entries[name].items
  }

  /** `inventories[name].money`, 0 for a name without an entry. */
  function Money(l: Ledger, name: string): nat {
    if name in l.entries then l.entries[name].money else 0
  }

  /** The money of the named entries, added up in order. */
  function SumMoney(names: seq<string>, entries: map<string, Entry>): nat
    requires forall k | 0 <= k < |names| :: names[k] in entries
    decreases |names|
  {
    if |names| == 0 then 0 else entries[names[0]].money + SumMoney(names[1..], entries)
  }

  /** `Object.values(inventories).reduce((sum, inv) => sum + inv.money, 0)` */
  function TotalMoney(l: Ledger): nat
    requires WellFormed(l)
  {
    SumMoney(l.order, l.entries)
  }

  /** Each summed entry's money is at most the sum, and the sum is zero
      exactly when every summed entry has none. */
  lemma {:induction false} SumMoneyBounds(names: seq<string>, entries: map<string, Entry>)
    requires forall k | 0 <= k < |names| :: names[k] in entries
    ensures forall k | 0 <= k < |names| :: entries[names[k]].money <= SumMoney(names, entries)
    ensures SumMoney(names, entries) == 0 <==> forall k | 0 <= k < |names| :: entries[names[k]].money == 0
    decreases |names|
  {
    if |names| > 0 {
      SumMoneyBounds(names[1..], entries);
      forall k | 1 <= k < |names|
        ensures entries[names[k]].money == entries[names[1..][k - 1]].money
      {
      }
    }
  }

  /** The total covers every character's money, and it is zero exactly
      when no character has any. */
  lemma TotalMoneyBounds(l: Ledger)
    requires WellFormed(l)
    ensures forall n | n in l.entries :: Money(l, n) <= TotalMoney(l)
    ensures TotalMoney(l) == 0 <==> forall n | n in l.entries :: Money(l, n) == 0
  {
    SumMoneyBounds(l.order, l.entries);
    forall n | n in l.entries
      ensures Money(l, n) <= TotalMoney(l)
    {
      var k :| 0 <= k < |l.order| && l.order[k] == n;
    }
  }

  /** Changing an entry whose name is not summed leaves the sum alone. */
  lemma {:induction false} SumMoneyFrame(names: seq<string>, entries: map<string, Entry>, name: string, e: Entry)
    requires forall k | 0 <= k < |names| :: names[k] in entries
    requires name !in names
    ensures SumMoney(names, entries[name := e]) == SumMoney(names, entries)
    decreases |names|
  {
    if |names| > 0 {
      SumMoneyFrame(names[1..], entries, name, e);
    }
  }

  /** Raising the money of a name summed once raises the sum by as much. */
  lemma {:induction false} SumMoneyRaise(names: seq<string>, entries: map<string, Entry>, name: string, e: Entry)
    requires forall k | 0 <= k < |names| :: names[k] in entries
    requires forall i, j | 0 <= i < j < |names| :: names[i] != names[j]
    requires name in names && name in entries && e.money >= entries[name].money
    ensures SumMoney(names, entries[name := e]) == SumMoney(names, entries) + (e.money - entries[name].money)
    decreases |names|
  {
    if names[0] == name {
      assert name !in names[1..];
      SumMoneyFrame(names[1..], entries, name, e);
    } else {
      SumMoneyRaise(names[1..], entries, name, e);
    }
  }

  /** A name added at the end contributes its own money. */
  lemma {:induction false} SumMoneyAppend(names: seq<string>, entries: map<string, Entry>, name: string)
    requires forall k | 0 <= k < |names| :: names[k] in entries
    requires name in entries
    ensures SumMoney(names + [name], entries) == SumMoney(names, entries) + entries[name].money
    decreases |names|
  {
    if |names| == 0 {
      assert names + [name] == [name];
    } else {
      assert (names + [name])[1..] == names[1..] + [name];
      SumMoneyAppend(names[1..], entries, name);
    }
  }

  /** No count and no money total of `e` is lower in `e'`. */
  predicate EntryGrows(e: Entry, e': Entry) {
    && e.money <= e'.money
    && forall id | id in e.items :: id in e'.items && e.items[id] <= e'.items[id]
  }

  /** Nothing recorded in `l` is lost or lowered in `l'`: every entry is
      still there and has not shrunk, and the names keep their order. */
  predicate Extends(l: Ledger, l': Ledger) {
    && |l.order| <= |l'.order| && l'.order[..|l.order|] == l.order
    && forall n | n in l.entries :: n in l'.entries && EntryGrows(l.entries[n], l'.entries[n])
  }

  lemma ExtendsTransitive(a: Ledger, b: Ledger, c: Ledger)
    requires Extends(a, b) && Extends(b, c)
    ensures Extends(a, c)
  {
    assert c.order[..|a.order|] == c.order[..|b.order|][..|a.order|];
  }

  /** The ledger with a new, empty entry for `name` at the end. */
  function Appended(l: Ledger, name: string): Ledger {
    Ledger(l.order + [name], l.entries[name := EmptyEntry])
  }

  lemma AppendedWellFormed(l: Ledger, name: string)
    requires WellFormed(l) && name !in l.entries
    ensures WellFormed(Appended(l, name))
  {
    var r := Appended(l, name);
    forall i, j | 0 <= i < j < |r.order|
      ensures r.order[i] != r.order[j]
    {
      if j == |l.order| {
        assert r.order[i] == l.order[i] && l.order[i] in l.entries;
      } else {
        assert r.order[i] == l.order[i] && r.order[j] == l.order[j];
      }
    }
    forall k | 0 <= k < |r.order|
      ensures r.order[k] in r.entries
    {
      if k < |l.order| {
        assert r.order[k] == l.order[k];
      }
    }
  }

  lemma AppendedExtends(l: Ledger, name: string)
    requires name !in l.entries
    ensures Extends(l, Appended(l, name))
  {
    var r := Appended(l, name);
    assert r.order[..|l.order|] == l.order;
    forall n | n in l.entries
      ensures n in r.entries && EntryGrows(l.entries[n], r.entries[n])
    {
      assert r.entries[n] == l.entries[n];
    }
  }

  lemma AppendedCounts(l: Ledger, name: string)
    requires name !in l.entries
    ensures forall n, k :: Count(Appended(l, name), n, k) == Count(l, n, k)
    ensures forall n, k :: Holds(Appended(l, name), n, k) == Holds(l, n, k)
    ensures forall n :: Money(Appended(l, name), n) == Money(l, n)
    ensures Appended(l, name).entries.Keys == l.entries.Keys + {name}
  {
  }

  lemma AppendedTotal(l: Ledger, name: string)
    requires WellFormed(l) && name !in l.entries
    ensures WellFormed(Appended(l, name))
    ensures TotalMoney(Appended(l, name)) == TotalMoney(l)
  {
    AppendedWellFormed(l, name);
    var r := Appended(l, name);
    SumMoneyFrame(l.order, l.entries, name, EmptyEntry);
    SumMoneyAppend(l.order, r.entries, name);
  }

  /** The ledger with the entry of `name` replaced by `e`. */
  function Replaced(l: Ledger, name: string, e: Entry): Ledger {
    Ledger(l.order, l.entries[name := e])
  }

  /** Replacing an entry by a grown one keeps the ledger well formed and
      extends it. */
  lemma ReplacedExtends(l: Ledger, name: string, e: Entry)
    requires WellFormed(l) && name in l.entries && EntryGrows(l.entries[name], e)
    ensures WellFormed(Replaced(l, name, e)) && Extends(l, Replaced(l, name, e))
  {
    assert Replaced(l, name, e).order[..|l.order|] == l.order;
  }

  /** ... and raises the total by the money the entry gained. */
  lemma ReplacedTotal(l: Ledger, name: string, e: Entry)
    requires WellFormed(l) && name in l.entries && EntryGrows(l.entries[name], e)
    ensures WellFormed(Replaced(l, name, e))
    ensures TotalMoney(Replaced(l, name, e)) == TotalMoney(l) + (e.money - l.entries[name].money)
  {
    ReplacedExtends(l, name, e);
    SumMoneyRaise(l.order, l.entries, name, e);
  }

  /** `if (!inventories[name]) inventories[name] = { items: {}, money: 0 }`:
      afterwards `name` has an entry; an existing entry is kept, a new one
      is empty and goes last; no other entry changes and the total stays. */
  function Open(l: Ledger, name: string): (r: Ledger)
    requires WellFormed(l)
    ensures WellFormed(r) && Extends(l, r)
    ensures r.entries.Keys == l.entries.Keys + {name}
    ensures forall n, k :: Count(r, n, k) == Count(l, n, k)
    ensures forall n, k :: Holds(r, n, k) == Holds(l, n, k)
    ensures forall n :: Money(r, n) == Money(l, n)
    ensures name !in l.entries ==> r.entries[name] == EmptyEntry && r.order == l.order + [name]
    ensures name in l.entries ==> r == l
    ensures TotalMoney(r) == TotalMoney(l)
  {
    if name in l.entries then l
    else
      AppendedExtends(l, name);
      AppendedCounts(l, name);
      AppendedTotal(l, name);
      Appended(l, name)
  }

  /** `items[id] = (items[id] || 0) + count` for the named character: that
      one count rises by `count`, every other count and all money stay. */
  function AddItem(l: Ledger, name: string, id: string, count: nat): (r: Ledger)
    requires WellFormed(l) && name in l.entries
    ensures WellFormed(r) && Extends(l, r) && r.order == l.order
    ensures r.entries.Keys == l.entries.Keys
    ensures forall n, k :: Holds(r, n, k) <==> Holds(l, n, k) || (n == name && k == id)
    ensures Count(r, name, id) == Count(l, name, id) + count
    ensures forall n, k | (n, k) != (name, id) :: Count(r, n, k) == Count(l, n, k)
    ensures forall n :: Money(r, n) == Money(l, n)
    ensures TotalMoney(r) == TotalMoney(l)
  {
    var e := l.entries[name];
    var e' := e.(items := e.items[id := Count(l, name, id) + count]);
    ReplacedExtends(l, name, e');
    ReplacedTotal(l, name, e');
    Replaced(l, name, e')
  }

  /** `inventories[name].money += amount`: that character's money and the
      total rise by `amount`, nothing else changes. */
  function AddMoney(l: Ledger, name: string, amount: nat): (r: Ledger)
    requires WellFormed(l) && name in l.entries
    ensures WellFormed(r) && Extends(l, r) && r.order == l.order
    ensures r.entries.Keys == l.entries.Keys
    ensures Money(r, name) == Money(l, name) + amount
    ensures forall n | n != name :: Money(r, n) == Money(l, n)
    ensures forall n, k :: Count(r, n, k) == Count(l, n, k)
    ensures forall n, k :: Holds(r, n, k) == Holds(l, n, k)
    ensures TotalMoney(r) == TotalMoney(l) + amount
  {
    var e := l.entries[name];
    var e' := e.(money := e.money + amount);
    ReplacedExtends(l, name, e');
    ReplacedTotal(l, name, e');
    ReplacedMoney(l, name, e');
    Replaced(l, name, e')
  }

  /** Replacing an entry by one with the same items changes only that
      character's money. */
  lemma ReplacedMoney(l: Ledger, name: string, e: Entry)
    requires name in l.entries && e.items == l.entries[name].items
    ensures Replaced(l, name, e).entries.Keys == l.entries.Keys
    ensures Money(Replaced(l, name, e), name) == e.money
    ensures forall n | n != name :: Money(Replaced(l, name, e), n) == Money(l, n)
    ensures forall n, k :: Count(Replaced(l, name, e), n, k) == Count(l, n, k)
    ensures forall n, k :: Holds(Replaced(l, name, e), n, k) == Holds(l, n, k)
  {
  }
}
