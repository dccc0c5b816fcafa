/**
 * The per-line loop of `parseData` (src/stores/bankStore.js:44-136) as a
 * fold over the normalised lines. `Classify` reads off a line everything
 * the loop body looks at. `Track` is the character-session tracker
 * (lines 63-82): header recognition, the allow-list flag, the equip-section
 * flag and the ledger entry. `Extract` is the aggregator (lines 84-133):
 * the race/class/level captures, item counts and money, run only for an
 * allow-listed character outside an equip section.
 */
module Tracker {
  import opened Wrappers
  import opened Text
  import opened Normaliser
  import opened Patterns
  import opened Ledger

  /** What the loop carries from line to line: `currentCharacter.name`,
      `isValidCharacter`, `isInEquipSection`, `inventories`, and the ids
      handed to `scrapeItem` so far. */
  datatype Session = Session(
    name: Option<string>,
    allowed: bool,
    inEquip: bool,
    ledger: Ledger,
    dispatched: seq<string>)

  /** The state before the first line. */
  const Start := Session(None, false, false, EmptyLedger, [])

  /** The allow list holds lower-cased names; membership is decided on the
      lower-cased header name. */
  predicate AllowListed(allow: seq<string>, name: string) {
    Lower(name) in allow
  }

  /** An id that may appear in an item map: a digit string whose numeric
      value is not the hearthstone's. */
  predicate CountableId(id: string) {
    |id| >= 1 && AllDigits(id) && DecimalValue(id) != HearthstoneId
  }

  /** What any ledger built by the loop satisfies: it is well formed, every
      entry belongs to an allow-listed, letters-only name, and every item id
      in it is countable. */
  ghost predicate Recorded(allow: seq<string>, l: Ledger) {
    && WellFormed(l)
    && (forall n | n in l.entries :: AllowListed(allow, n) && AllLetters(n))
    && (forall n, id | Holds(l, n, id) :: CountableId(id))
  }

  /** The invariant of the loop. */
  ghost predicate Inv(allow: seq<string>, s: Session) {
    && Recorded(allow, s.ledger)
    && (s.name.None? ==> !s.allowed && s.ledger == EmptyLedger && s.dispatched == [])
    && (s.allowed ==> s.name.Some? && AllowListed(allow, s.name.value) && s.name.value in s.ledger.entries)
    && (s.name.Some? ==> AllLetters(s.name.value))
    && (forall k | 0 <= k < |s.dispatched| :: CountableId(s.dispatched[k]))
  }

  lemma StartInv(allow: seq<string>)
    ensures Inv(allow, Start)
  {
  }

  // ---------------------------------------------------------------------
  // What the loop body reads off a line

  /** The line as the loop body sees it: `line.replace(/\r$/, '')`. */
  function Seen(raw: string): string {
    StripCarriageReturn(raw)
  }

  /** Everything the loop body tests on one line: the header capture, the
      `["equip"]` and `},` substrings, whether a race/class/level capture
      throws, the item capture and the money capture. */
  datatype LineFacts = LineFacts(
    header: Option<string>,
    marker: bool,
    close: bool,
    crash: bool,
    item: Option<ItemHit>,
    money: Option<nat>)

  /** What holds of the facts of any line: a header name is letters only,
      carries the equip marker exactly when it is "equip", and holds no
      `},`; an item id is a digit string. */
  predicate WellClassified(f: LineFacts) {
    && (f.header.Some? ==>
          && |f.header.value| >= 1 && AllLetters(f.header.value)
          && (f.marker <==> f.header.value == "equip")
          && !f.close)
    && (f.item.Some? ==> |f.item.value.id| >= 1 && AllDigits(f.item.value.id))
  }

  /** The facts of a line as `Classify` reads them off. */
  type Facts = f: LineFacts | WellClassified(f) witness LineFacts(None, false, false, false, None, None)

  /** The facts of one raw line. */
  function Classify(raw: string): (f: LineFacts)
    ensures WellClassified(f)
  {
    var line := Seen(raw);
    HeaderMarkers(line);
    LineFacts(
      HeaderName(line),
      Contains(line, EquipMarker),
      Contains(line, SectionClose),
      FieldCrash(line),
      LineItem(line),
      LineMoney(line))
  }

  /** The two markers the classifier reads off a header line: the equip
      marker, present exactly for the name "equip" (`HeaderEquipMarker`),
      and the section close `},`, which it never holds. Stated for every
      line, as an implication, so that `Classify` can use it unconditionally. */
  lemma HeaderMarkers(line: string)
    ensures HeaderName(line).Some? ==>
              && (Contains(line, EquipMarker) <==> HeaderName(line).value == "equip")
              && !Contains(line, SectionClose)
  {
    if HeaderName(line).Some? {
      HeaderEquipMarker(line);
      HeaderNoSectionClose(line);
    }
  }

  /** A header line holds no `},`. */
  lemma HeaderNoSectionClose(line: string)
    requires HeaderName(line).Some?
    ensures !Contains(line, SectionClose)
  {
    var name := HeaderName(line).value;
    forall k | 0 <= k < |line|
      ensures line[k] != '}'
    {
      if HeaderIndent + 2 <= k < HeaderIndent + 2 + |name| {
        assert line[k] == name[k - HeaderIndent - 2];
      }
    }
    if Contains(line, SectionClose) {
      ContainsFirstChar(line, SectionClose);
    }
  }

  // ---------------------------------------------------------------------
  // Tracker

  /** Lines 64-82 on one line: a header sets the name, recomputes the
      allow-list flag and clears the equip flag; `["equip"]` sets the
      flag and a `},` on an equip line clears it again; an allow-listed
      character gets an empty entry if it has none. */
  function Track(allow: seq<string>, s: Session, f: Facts): (t: Session)
    requires Inv(allow, s)
    ensures Inv(allow, t) && Extends(s.ledger, t.ledger) && t.dispatched == s.dispatched
  {
    var name := if f.header.Some? then f.header else s.name;
    var allowed := if f.header.Some? then AllowListed(allow, f.header.value) else s.allowed;
    var marked := (f.header.None? && s.inEquip) || f.marker;
    var inEquip := marked && !f.close;
    var ledger := if allowed then Open(s.ledger, name.value) else s.ledger;
    Session(name, allowed, inEquip, ledger, s.dispatched)
  }

  /** How tracking a raw line moves the name and the two flags: a header
      takes over the name and the allow-list verdict and leaves the equip
      section unless its name is "equip"; otherwise the equip marker opens
      the section, `},` closes it, and anything else keeps it. */
  lemma TrackFlags(allow: seq<string>, s: Session, raw: string)
    requires Inv(allow, s)
    ensures var line := Seen(raw);
            var t := Track(allow, s, Classify(raw));
            && (HeaderName(line).Some? ==>
                  && t.name == HeaderName(line)
                  && t.allowed == AllowListed(allow, HeaderName(line).value)
                  && t.inEquip == (HeaderName(line).value == "equip"))
            && (HeaderName(line).None? ==> t.name == s.name && t.allowed == s.allowed)
            && (HeaderName(line).None? && Contains(line, EquipMarker) && !Contains(line, SectionClose) ==> t.inEquip)
            && (Contains(line, SectionClose) ==> !t.inEquip)
            && (!Contains(line, EquipMarker) && !Contains(line, SectionClose) ==>
                  t.inEquip == (HeaderName(line).None? && s.inEquip))
  {
    HeaderMarkers(Seen(raw));
  }

  /** What tracking does to the ledger: at most it adds an empty entry for
      the current character, and only when that character is allow-listed
      and has none yet. */
  lemma TrackLedger(allow: seq<string>, s: Session, f: Facts)
    requires Inv(allow, s)
    ensures var t := Track(allow, s, f);
            && (forall n, k :: Count(t.ledger, n, k) == Count(s.ledger, n, k))
            && (forall n :: Money(t.ledger, n) == Money(s.ledger, n))
            && TotalMoney(t.ledger) == TotalMoney(s.ledger)
            && t.ledger.entries.Keys == s.ledger.entries.Keys + (if t.allowed then {t.name.value} else {})
            && (!t.allowed ==> t.ledger == s.ledger)
            && (t.allowed && t.name.value in s.ledger.entries ==> t.ledger == s.ledger)
  {
  }

  // ---------------------------------------------------------------------
  // Aggregator

  /** Extraction runs for the line (line 84). */
  predicate Extracting(t: Session) {
    t.allowed && !t.inEquip
  }

  /** The item a line counts: its capture, unless the id's numeric value
      is the hearthstone's (`itemId != 6948` compares as numbers). */
  function Counted(hit: Option<ItemHit>): (r: Option<ItemHit>)
    ensures r.Some? ==> CountableId(r.value.id) && r == hit
    ensures hit.Some? && CountableId(hit.value.id) ==> r == hit
  {
    if hit.Some? && CountableId(hit.value.id) then hit else None
  }

  /** What a counted item `hit` in the section of `current` adds to the
      count of `id` for `name`. */
  function ItemGain(current: string, hit: Option<ItemHit>, name: string, id: string): nat {
    if name == current && hit.Some? && hit.value.id == id then hit.value.count else 0
  }

  /** What `amount` of money in the section of `current` adds to `name`. */
  function MoneyGain(current: string, amount: nat, name: string): nat {
    if name == current then amount else 0
  }

  /** The result of one line: the next state, or the exception thrown by
      `match(...)[1]` together with the ledger as it stood. */
  datatype StepResult = Continue(next: Session) | Crash(partial: Ledger)

  /** The item step of lines 103-123 for an extracting session: a
      captured item other than the hearthstone is counted and dispatched. */
  function AddLineItem(allow: seq<string>, t: Session, hit: Option<ItemHit>): (u: Session)
    requires Inv(allow, t) && Extracting(t)
    ensures Inv(allow, u) && Extends(t.ledger, u.ledger) && u.ledger.entries.Keys == t.ledger.entries.Keys
    ensures u.name == t.name && u.allowed == t.allowed && u.inEquip == t.inEquip
  {
    match Counted(hit)
    case Some(h) =>
      var l := AddItem(t.ledger, t.name.value, h.id, h.count);
      RecordedAddItem(allow, t.ledger, t.name.value, h.id, h.count);
      AppendCountable(t.dispatched, h.id);
      t.(ledger := l, dispatched := t.dispatched + [h.id])
    case None => t
  }

  /** Adding a countable id keeps a ledger recorded. */
  lemma RecordedAddItem(allow: seq<string>, l: Ledger, name: string, id: string, count: nat)
    requires Recorded(allow, l) && name in l.entries && CountableId(id)
    ensures Recorded(allow, AddItem(l, name, id, count))
  {
    var r := AddItem(l, name, id, count);
    forall n, k | Holds(r, n, k)
      ensures CountableId(k)
    {
      assert Holds(l, n, k) || k == id;
    }
  }

  lemma AppendCountable(ids: seq<string>, id: string)
    requires forall k | 0 <= k < |ids| :: CountableId(ids[k])
    requires CountableId(id)
    ensures forall k | 0 <= k < |ids + [id]| :: CountableId((ids + [id])[k])
  {
  }

  /** The item step adds the counted item to the current character's count
      and to the dispatched ids, and changes nothing else. */
  lemma AddLineItemLaws(allow: seq<string>, t: Session, hit: Option<ItemHit>)
    requires Inv(allow, t) && Extracting(t)
    ensures var u := AddLineItem(allow, t, hit);
            && (forall n, k :: Count(u.ledger, n, k) == Count(t.ledger, n, k) + ItemGain(t.name.value, Counted(hit), n, k))
            && (forall n :: Money(u.ledger, n) == Money(t.ledger, n))
            && TotalMoney(u.ledger) == TotalMoney(t.ledger)
            && u.dispatched == t.dispatched + (if Counted(hit).Some? then [hit.value.id] else [])
  {
    var c := Counted(hit);
    if c.Some? {
      var l := AddItem(t.ledger, t.name.value, c.value.id, c.value.count);
      assert AddLineItem(allow, t, hit).ledger == l;
      forall n, k
        ensures Count(l, n, k) == Count(t.ledger, n, k) + ItemGain(t.name.value, c, n, k)
      {
        if n == t.name.value && k == c.value.id {
        } else {
          assert ItemGain(t.name.value, c, n, k) == 0;
        }
      }
    }
  }

  /** The money step of lines 126-131 for an extracting session. */
  function AddLineMoney(allow: seq<string>, t: Session, money: Option<nat>): (u: Session)
    requires Inv(allow, t) && Extracting(t)
    ensures Inv(allow, u) && Extends(t.ledger, u.ledger) && u.ledger.entries.Keys == t.ledger.entries.Keys
    ensures u.name == t.name && u.allowed == t.allowed && u.inEquip == t.inEquip && u.dispatched == t.dispatched
    ensures forall n, k :: Count(u.ledger, n, k) == Count(t.ledger, n, k)
    ensures forall n :: Money(u.ledger, n) == Money(t.ledger, n) + MoneyGain(t.name.value, money.GetOr(0), n)
    ensures TotalMoney(u.ledger) == TotalMoney(t.ledger) + money.GetOr(0)
  {
    match money
    case Some(m) => t.(ledger := AddMoney(t.ledger, t.name.value, m))
    case None => t
  }

  /** Lines 103-131 for a line that does not throw: its item, then its
      money. */
  function Absorb(allow: seq<string>, t: Session, f: LineFacts): (u: Session)
    requires Inv(allow, t) && Extracting(t)
    ensures Inv(allow, u) && Extends(t.ledger, u.ledger)
    ensures u.name == t.name && u.allowed == t.allowed && u.inEquip == t.inEquip
    ensures u.ledger.entries.Keys == t.ledger.entries.Keys
  {
    var u := AddLineItem(allow, t, f.item);
    var v := AddLineMoney(allow, u, f.money);
    ExtendsTransitive(t.ledger, u.ledger, v.ledger);
    v
  }

  /** A line adds its counted item to the current character's count and to
      the dispatched ids, and changes no other count. */
  lemma AbsorbCounts(allow: seq<string>, t: Session, f: LineFacts)
    requires Inv(allow, t) && Extracting(t)
    ensures var u := Absorb(allow, t, f);
            && (forall n, k :: Count(u.ledger, n, k) == Count(t.ledger, n, k) + ItemGain(t.name.value, Counted(f.item), n, k))
            && u.dispatched == t.dispatched + (if Counted(f.item).Some? then [f.item.value.id] else [])
  {
    var u := AddLineItem(allow, t, f.item);
    AddLineItemLaws(allow, t, f.item);
    var v := AddLineMoney(allow, u, f.money);
  }

  /** A line adds its money to the current character and to the total, and
      changes no other character's money. */
  lemma AbsorbMoney(allow: seq<string>, t: Session, f: LineFacts)
    requires Inv(allow, t) && Extracting(t)
    ensures var u := Absorb(allow, t, f);
            && (forall n :: Money(u.ledger, n) == Money(t.ledger, n) + MoneyGain(t.name.value, f.money.GetOr(0), n))
            && TotalMoney(u.ledger) == TotalMoney(t.ledger) + f.money.GetOr(0)
  {
    var u := AddLineItem(allow, t, f.item);
    AddLineItemLaws(allow, t, f.item);
    var v := AddLineMoney(allow, u, f.money);
  }

  /** Lines 84-133 on one line: nothing happens unless the character is
      allow-listed and outside an equip section; then a failed field
      capture throws with the ledger as it stood, and otherwise the line's
      item and money are added. */
  function Extract(allow: seq<string>, t: Session, f: LineFacts): (r: StepResult)
    requires Inv(allow, t)
    ensures r.Crash? <==> Extracting(t) && f.crash
    ensures r.Crash? ==> r.partial == t.ledger
    ensures !Extracting(t) ==> r == Continue(t)
    ensures Extracting(t) && !f.crash ==> r == Continue(Absorb(allow, t, f))
    ensures r.Continue? ==> Inv(allow, r.next) && Extends(t.ledger, r.next.ledger)
  {
    if !Extracting(t) then Continue(t)
    else if f.crash then Crash(t.ledger)
    else Continue(Absorb(allow, t, f))
  }

  /** One iteration of the `forEach`: track, then extract. */
  function Step(allow: seq<string>, s: Session, f: Facts): (r: StepResult)
    requires Inv(allow, s)
    ensures r.Continue? ==> Inv(allow, r.next) && Extends(s.ledger, r.next.ledger)
    ensures r.Crash? ==> Recorded(allow, r.partial) && Extends(s.ledger, r.partial)
  {
    var t := Track(allow, s, f);
    var r := Extract(allow, t, f);
    match r
    case Continue(u) => ExtendsTransitive(s.ledger, t.ledger, u.ledger); r
    case Crash(_) => r
  }

  // ---------------------------------------------------------------------
  // The whole loop

  /** How the loop ends: after the last line, or with the exception thrown
      at line `at`, leaving `inventories` as it then stood. */
  datatype Outcome = Finished(final: Session) | Crashed(at: nat, partial: Ledger)

  /** `lines.forEach(...)` from state `s`, on the lines' facts. */
  function RunLines(allow: seq<string>, s: Session, fs: seq<Facts>): (o: Outcome)
    requires Inv(allow, s)
    ensures o.Finished? ==> Inv(allow, o.final) && Extends(s.ledger, o.final.ledger)
    ensures o.Crashed? ==> o.at < |fs| && Recorded(allow, o.partial) && Extends(s.ledger, o.partial)
    decreases |fs|
  {
    if |fs| == 0 then Finished(s)
    else
      match Step(allow, s, fs[0])
      case Crash(l) => Crashed(0, l)
      case Continue(t) =>
        match RunLines(allow, t, fs[1..])
        case Finished(f) =>
          ExtendsTransitive(s.ledger, t.ledger, f.ledger);
          Finished(f)
        case Crashed(i, l) =>
          ExtendsTransitive(s.ledger, t.ledger, l);
          Crashed(i + 1, l)
  }

  /** The facts of every line, in order. */
  function ClassifyAll(lines: seq<string>): (fs: seq<Facts>)
    ensures |fs| == |lines|
  {
    seq(|lines|, k requires 0 <= k < |lines| => Classify(lines[k]))
  }

  /** The state of `parseData` once the loop is over. */
  datatype Parse =
    | Parsed(inventories: Ledger, totalMoney: nat, dispatched: seq<string>)
    | Failed(line: nat, inventories: Ledger)

  /** The loop over `lines` from the start state, then the money added up.
      A thrown capture leaves `totalMoney` at the 0 it was reset to. */
  function ParseLines(allow: seq<string>, lines: seq<string>): (r: Parse)
    ensures Recorded(allow, r.inventories)
    ensures r.Parsed? ==> r.totalMoney == TotalMoney(r.inventories)
    ensures r.Parsed? ==> forall k | 0 <= k < |r.dispatched| :: CountableId(r.dispatched[k])
    ensures r.Failed? ==> r.line < |lines|
  {
    StartInv(allow);
    match RunLines(allow, Start, ClassifyAll(lines))
    case Finished(f) => Parsed(f.ledger, TotalMoney(f.ledger), f.dispatched)
    case Crashed(i, l) => Failed(i, l)
  }

  /** `parseData(lua)` up to the save phase: normalise the dump, split it
      into lines and run the loop over them. */
  function ParseData(allow: seq<string>, lua: string): (r: Parse)
    ensures Recorded(allow, r.inventories)
    ensures r.Parsed? ==> r.totalMoney == TotalMoney(r.inventories)
    ensures r.Parsed? ==> forall k | 0 <= k < |r.dispatched| :: CountableId(r.dispatched[k])
    ensures r.Failed? ==> r.line < |Split(lua)|
  {
    ParseLines(allow, Split(PrettifyLua(lua)))
  }
}
