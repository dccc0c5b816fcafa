/**
 * The pure data transforms around the store's Firestore traffic: the
 * inventory documents `saveParsedItems` writes (src/stores/bankStore.js:
 * 243-251), the chunks of ten ids `getScrapedItemsByIds` queries with
 * (lines 296-302), `isItemReserved` (lines 395-398) over the reserved list
 * `fetchReservedItems` builds (lines 416-428), and the lower-cased allow
 * list `fetchAllowedCharacters` builds (lines 401-413).
 */
module Records {
  import opened Wrappers
  import opened Text
  import opened Patterns
  import opened Ledger
  import opened Tracker

  // ---------------------------------------------------------------------
  // Inventory documents

  /** The document id `${character}_${itemId}`. */
  function DocId(character: string, itemId: string): (r: string)
    ensures |r| == |character| + 1 + |itemId| && r[|character|] == '_'
    ensures r[..|character|] == character && r[|character| + 1..] == itemId
  {
    character + "_" + itemId
  }

  /** `{ character, item_id: Number(itemId), count }` */
  datatype InventoryDoc = InventoryDoc(character: string, itemId: nat, count: nat)

  /** One `setDoc(doc(db, 'inventory', docId), itemData)`. */
  datatype Write = Write(docId: string, doc: InventoryDoc)

  /** Every item id in the ledger is a digit string. */
  predicate DigitIds(l: Ledger) {
    forall c, k | c in l.entries && k in l.entries[c].items :: AllDigits(k)
  }

  /** Every character name in the ledger is letters only. */
  predicate LetterNames(l: Ledger) {
    forall c | c in l.entries :: AllLetters(c)
  }

  /** The writes for one held item. */
  function ItemWrite(l: Ledger, c: string, k: string): Write
    requires AllDigits(k)
  {
    Write(DocId(c, k), InventoryDoc(c, DecimalValue(k), Count(l, c, k)))
  }

  /** The writes of the nested `Object.entries` loops: one per character
      and item id the ledger holds. */
  function Flatten(l: Ledger): (r: set<Write>)
    requires DigitIds(l)
    ensures forall c, k | Holds(l, c, k) :: ItemWrite(l, c, k) in r
    ensures forall w | w in r :: exists k | Holds(l, w.doc.character, k) ::
      && w.docId == DocId(w.doc.character, k)
      && w.doc.itemId == DecimalValue(k)
      && w.doc.count == Count(l, w.doc.character, k)
  {
    set c, k | c in l.entries && k in l.entries[c].items :: ItemWrite(l, c, k)
  }

  /** The doc id takes a letters-only name and a digit string apart again:
      `_` is neither a letter nor a digit, so it marks where the name ends. */
  lemma DocIdInjective(c: string, k: string, c': string, k': string)
    requires AllLetters(c) && AllLetters(c') && AllDigits(k) && AllDigits(k')
    requires DocId(c, k) == DocId(c', k')
    ensures c == c' && k == k'
  {
    var d := DocId(c, k);
    assert |c| == |c'|;
    assert c == d[..|c|] == c';
    assert k == d[|c| + 1..] == k';
  }

  /** No two writes share a document id, so saving the ledger overwrites
      nothing it has just written; and every held item is written under its
      count. */
  lemma FlattenDistinct(l: Ledger)
    requires DigitIds(l) && LetterNames(l)
    ensures forall w, w' | w in Flatten(l) && w' in Flatten(l) && w.docId == w'.docId :: w == w'
    ensures forall c, k | Holds(l, c, k) :: ItemWrite(l, c, k) in Flatten(l)
  {
    forall w, w' | w in Flatten(l) && w' in Flatten(l) && w.docId == w'.docId
      ensures w == w'
    {
      var c, k :| c in l.entries && k in l.entries[c].items && w == ItemWrite(l, c, k);
      var c', k' :| c' in l.entries && k' in l.entries[c'].items && w' == ItemWrite(l, c', k');
      DocIdInjective(c, k, c', k');
    }
  }

  /** A ledger the parse produced meets the preconditions of the writes and
      of `FlattenDistinct`, and every write names a held item, under a
      numeric id other than the hearthstone's. */
  lemma FlattenCountable(allow: seq<string>, l: Ledger)
    requires Recorded(allow, l)
    ensures DigitIds(l) && LetterNames(l)
    ensures forall w | w in Flatten(l) :: w.doc.itemId != HearthstoneId && w.doc.character in l.entries
  {
    forall c, k | c in l.entries && k in l.entries[c].items
      ensures AllDigits(k) && DecimalValue(k) != HearthstoneId
    {
      assert Holds(l, c, k);
      assert CountableId(k);
    }
    assert DigitIds(l);
    forall w | w in Flatten(l)
      ensures w.doc.itemId != HearthstoneId && w.doc.character in l.entries
    {
      var c, k :| c in l.entries && k in l.entries[c].items && w == ItemWrite(l, c, k);
    }
  }

  /** Saving what `parseData` counted writes each document once: no two
      writes share a document id, and every held item is written. */
  lemma ParsedWritesDistinct(allow: seq<string>, lua: string)
    ensures var l := ParseData(allow, lua).inventories;
            && DigitIds(l)
            && (forall w, w' | w in Flatten(l) && w' in Flatten(l) && w.docId == w'.docId :: w == w')
            && (forall c, k | Holds(l, c, k) :: ItemWrite(l, c, k) in Flatten(l))
  {
    var l := ParseData(allow, lua).inventories;
    FlattenCountable(allow, l);
    FlattenDistinct(l);
  }

  /** `Number(itemId)` loses only leading zeros: a canonical id is the
      spelling of the numeric `item_id` written for it. */
  lemma WriteIdSpelling(l: Ledger, c: string, k: string)
    requires Canonical(k)
    ensures DecimalString(ItemWrite(l, c, k).doc.itemId) == k
  {
    DecimalStringOfValue(k);
  }

  // ---------------------------------------------------------------------
  // Chunks of ten

  const ChunkSize := 10

  /** The chunks, concatenated back together. */
  function Concat<T>(chunks: seq<seq<T>>): seq<T>
    decreases |chunks|
  {
    if |chunks| == 0 then [] else chunks[0] + Concat(chunks[1..])
  }

  /** The chunks `ids.slice(i, i + 10)` for `i = 0, 10, 20, …`. */
  function Chunks<T>(ids: seq<T>): (r: seq<seq<T>>)
    ensures Concat(r) == ids
    ensures forall i | 0 <= i < |r| :: 1 <= |r[i]| <= ChunkSize
    ensures forall i | 0 <= i < |r| - 1 :: |r[i]| == ChunkSize
    ensures |r| == (|ids| + ChunkSize - 1) / ChunkSize
    decreases |ids|
  {
    if |ids| <= ChunkSize then (if |ids| == 0 then [] else [ids])
    else
      var rest := Chunks(ids[ChunkSize..]);
      assert ids == ids[..ChunkSize] + ids[ChunkSize..];
      [ids[..ChunkSize]] + rest
  }

  /** Concatenation distributes over appending one chunk. */
  lemma {:induction false} ConcatSnoc<T>(chunks: seq<seq<T>>, c: seq<T>)
    ensures Concat(chunks + [c]) == Concat(chunks) + c
    decreases |chunks|
  {
    if |chunks| > 0 {
      assert (chunks + [c])[1..] == chunks[1..] + [c];
      ConcatSnoc(chunks[1..], c);
    }
  }

  /** The loop of `getScrapedItemsByIds` that fills `chunks`: it builds the
      chunks above. */
  method ChunkIds<T>(ids: seq<T>) returns (chunks: seq<seq<T>>)
    ensures chunks == Chunks(ids)
  {
    chunks := [];
    var i := 0;
    while i < |ids|
      invariant 0 <= i <= |ids| + ChunkSize - 1
      invariant i % ChunkSize == 0
      invariant i >= |ids| ==> Concat(chunks) == ids
      invariant i < |ids| ==> Concat(chunks) == ids[..i]
      invariant forall j | 0 <= j < |chunks| :: 1 <= |chunks[j]| <= ChunkSize
      invariant forall j | 0 <= j < |chunks| - 1 :: |chunks[j]| == ChunkSize
      invariant i <= |ids| ==> forall j | 0 <= j < |chunks| :: |chunks[j]| == ChunkSize
      invariant |chunks| == i / ChunkSize
      decreases |ids| - i
    {
      var end := if i + ChunkSize <= |ids| then i + ChunkSize else |ids|;
      ConcatSnoc(chunks, ids[i..end]);
      assert ids[..end] == ids[..i] + ids[i..end];
      chunks := chunks + [ids[i..end]];
      i := i + ChunkSize;
    }
    ChunksUnique(ids, chunks);
  }

  /** Chunks of ten that concatenate to the ids, all full but the last, are
      the chunks of the ids. */
  lemma {:induction false} ChunksUnique<T>(ids: seq<T>, chunks: seq<seq<T>>)
    requires Concat(chunks) == ids
    requires forall i | 0 <= i < |chunks| :: 1 <= |chunks[i]| <= ChunkSize
    requires forall i | 0 <= i < |chunks| - 1 :: |chunks[i]| == ChunkSize
    ensures chunks == Chunks(ids)
    decreases |chunks|
  {
    if |chunks| > 1 {
      assert |chunks[0]| == ChunkSize;
      assert ids[..ChunkSize] == chunks[0];
      assert ids[ChunkSize..] == Concat(chunks[1..]);
      ChunksUnique(ids[ChunkSize..], chunks[1..]);
      assert chunks == [chunks[0]] + chunks[1..];
    } else if |chunks| == 1 {
      assert Concat(chunks) == chunks[0];
    }
  }

  // ---------------------------------------------------------------------
  // Reserved items and the allow list

  /** A stored field value: a string or a whole number. */
  datatype Scalar = Str(s: string) | Num(n: int)

  /** `String(n)` for a whole number. */
  function IntString(n: int): (r: string)
    ensures n >= 0 ==> r == DecimalString(n)
    ensures n < 0 ==> r == "-" + DecimalString(-n)
  {
    if n >= 0 then DecimalString(n) else "-" + DecimalString(-n)
  }

  /** `typeof v === 'string' ? v : String(v)` */
  function AsString(v: Scalar): string {
    match v
    case Str(s) => s
    case Num(n) => IntString(n)
  }

  /** `Number(v)` when it is a whole number: a string of digits reads as its
      value, and every other string is left without one. */
  function AsNumber(v: Scalar): Option<int> {
    match v
    case Num(n) => Some(n)
    case Str(s) => if |s| >= 1 && AllDigits(s) then Some(DecimalValue(s)) else None
  }

  /** The reserved list `fetchReservedItems` stores: every id as a string. */
  function ReservedList(stored: seq<Scalar>): (r: seq<Scalar>)
    ensures |r| == |stored|
    ensures forall i | 0 <= i < |r| :: r[i] == Str(AsString(stored[i]))
  {
    seq(|stored|, i requires 0 <= i < |stored| => Str(AsString(stored[i])))
  }

  /** `reserved.includes(Number(itemId)) || reserved.includes(String(itemId))` */
  predicate IsItemReserved(reserved: seq<Scalar>, itemId: Scalar): (r: bool)
    ensures itemId in reserved ==> r
    ensures (forall i | 0 <= i < |reserved| :: reserved[i].Str?) ==> (r <==> Str(AsString(itemId)) in reserved)
  {
    || (AsNumber(itemId).Some? && Num(AsNumber(itemId).value) in reserved)
    || Str(AsString(itemId)) in reserved
  }

  /** On the stored reserved list only the string comparison can succeed,
      so an item is reserved exactly when its spelling is one of the stored
      ids' spellings: a stored number 6948 reserves 6948 and "6948", but
      not "06948". */
  lemma ReservedBySpelling(stored: seq<Scalar>, itemId: Scalar)
    ensures IsItemReserved(ReservedList(stored), itemId) <==>
      exists i | 0 <= i < |stored| :: AsString(stored[i]) == AsString(itemId)
  {
    var r := ReservedList(stored);
    if IsItemReserved(r, itemId) {
      var i :| 0 <= i < |r| && r[i] == Str(AsString(itemId));
      assert AsString(stored[i]) == AsString(itemId);
    }
    if exists i | 0 <= i < |stored| :: AsString(stored[i]) == AsString(itemId) {
      var i :| 0 <= i < |stored| && AsString(stored[i]) == AsString(itemId);
      assert r[i] == Str(AsString(itemId));
    }
  }

  /** A number and its decimal spelling are reserved alike. */
  lemma ReservedNumberOrString(stored: seq<Scalar>, n: nat)
    ensures IsItemReserved(ReservedList(stored), Num(n)) == IsItemReserved(ReservedList(stored), Str(DecimalString(n)))
  {
    ReservedBySpelling(stored, Num(n));
    ReservedBySpelling(stored, Str(DecimalString(n)));
  }

  /** The allow list `fetchAllowedCharacters` stores: every name as a
      lower-cased string. */
  function AllowList(stored: seq<Scalar>): (r: seq<string>)
    ensures |r| == |stored|
    ensures forall i | 0 <= i < |r| :: r[i] == Lower(AsString(stored[i]))
  {
    seq(|stored|, i requires 0 <= i < |stored| => Lower(AsString(stored[i])))
  }

  /** A header name is allow-listed exactly when it equals a stored name up
      to case, so the case of the stored names and of the dump's headers is
      irrelevant. */
  lemma AllowListedIgnoringCase(stored: seq<Scalar>, name: string)
    ensures AllowListed(AllowList(stored), name) <==>
      exists i | 0 <= i < |stored| :: Lower(AsString(stored[i])) == Lower(name)
    ensures AllowListed(AllowList(stored), name) == AllowListed(AllowList(stored), Lower(name))
  {
    var r := AllowList(stored);
    LowerIdempotent(name);
    if AllowListed(r, name) {
      var i :| 0 <= i < |r| && r[i] == Lower(name);
      assert Lower(AsString(stored[i])) == Lower(name);
    }
    if exists i | 0 <= i < |stored| :: Lower(AsString(stored[i])) == Lower(name) {
      var i :| 0 <= i < |stored| && Lower(AsString(stored[i])) == Lower(name);
      assert r[i] == Lower(name);
    }
  }
}
