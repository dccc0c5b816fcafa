/**
 * The regular expressions `parseData` (src/stores/bankStore.js:62-136)
 * applies to each normalised line, written out as matchers: the character
 * header, the race/class/level fields, the indexed and bare item-slot
 * forms, the money digit run, and the plain substring markers.
 * JavaScript's `match` without the `g` flag returns the leftmost match;
 * every pattern here is deterministic once its start is fixed (each
 * greedy run is followed by a character the run cannot contain), so a
 * match is fully described by its start position.
 */
module Patterns {
  import opened Wrappers
  import opened Text

  /** Substrings `parseData` tests with `includes`. */
  const EquipMarker := "[\"equip\"]"
  const SectionClose := "},"
  const RaceKey := "race"
  const ClassKey := "class"
  const LevelKey := "level"
  const MoneyKey := "money"

  /** The hearthstone, never counted (the comparison is numeric). */
  const HearthstoneId: nat := 6948

  // ---------------------------------------------------------------------
  // Character runs

  /** The character classes the patterns repeat. */
  datatype CharClass = Digit | Space | Is(c: char) | Not(c: char)

  predicate InClass(cls: CharClass, c: char) {
    match cls
    case Digit => IsDigit(c)
    case Space => IsSpace(c)
    case Is(d) => c == d
    case Not(d) => c != d
  }

  /** The length of the longest run of `cls` characters starting at `i`:
      what a greedy `cls*` consumes there. */
  function Run(s: string, i: nat, cls: CharClass): (n: nat)
    requires i <= |s|
    ensures i + n <= |s|
    decreases |s| - i
  {
    if i < |s| && InClass(cls, s[i]) then 1 + Run(s, i + 1, cls) else 0
  }

  /** A run consists of `cls` characters and stops at the end of `s` or at
      a character outside `cls`. */
  lemma RunShape(s: string, i: nat, cls: CharClass)
    requires i <= |s|
    ensures forall k | i <= k < i + Run(s, i, cls) :: InClass(cls, s[k])
    ensures i + Run(s, i, cls) == |s| || !InClass(cls, s[i + Run(s, i, cls)])
    decreases |s| - i
  {
    if i < |s| && InClass(cls, s[i]) {
      RunShape(s, i + 1, cls);
    }
  }

  /** A run is determined by where it stops. */
  lemma RunExactly(s: string, i: nat, cls: CharClass, n: nat)
    requires i + n <= |s|
    requires forall k | i <= k < i + n :: InClass(cls, s[k])
    requires i + n == |s| || !InClass(cls, s[i + n])
    ensures Run(s, i, cls) == n
    decreases n
  {
    if n > 0 {
      RunExactly(s, i + 1, cls, n - 1);
    }
  }

  // ---------------------------------------------------------------------
  // Header: /^\s{8}\["([\p{L}]+)"\] = \{$/u

  const HeaderIndent: nat := 8
  const HeaderOpen := "[\""
  const HeaderClose := "\"] = {"

  /** The character name a header line introduces, if the line is one:
      eight white-space characters, `["`, one or more letters, `"] = {`,
      and nothing else. */
  function HeaderName(line: string): (r: Option<string>)
    ensures r.Some? ==>
              && |line| >= HeaderIndent && |r.value| >= 1 && AllLetters(r.value)
              && (forall k | 0 <= k < HeaderIndent :: IsSpace(line[k]))
              && line == line[..HeaderIndent] + HeaderOpen + r.value + HeaderClose
  {
    if |line| >= HeaderIndent + |HeaderOpen| + 1 + |HeaderClose|
       && (forall k | 0 <= k < HeaderIndent :: IsSpace(line[k]))
       && line[HeaderIndent..HeaderIndent + |HeaderOpen|] == HeaderOpen
       && line[|line| - |HeaderClose|..] == HeaderClose
       && AllLetters(line[HeaderIndent + |HeaderOpen|..|line| - |HeaderClose|])
    then
      var name := line[HeaderIndent + |HeaderOpen|..|line| - |HeaderClose|];
      assert line == line[..HeaderIndent] + HeaderOpen + name + HeaderClose;
      Some(name)
    else None
  }

  /** The header line the normaliser writes for a character at depth two. */
  function HeaderLine(indent: string, name: string): string {
    indent + HeaderOpen + name + HeaderClose
  }

  /** Every non-empty letters-only name behind eight white-space characters
      is recognised as a header, with that name. */
  lemma HeaderNameOfHeaderLine(indent: string, name: string)
    requires |indent| == HeaderIndent && forall k | 0 <= k < |indent| :: IsSpace(indent[k])
    requires |name| >= 1 && AllLetters(name)
    ensures HeaderName(HeaderLine(indent, name)) == Some(name)
  {
    var line := HeaderLine(indent, name);
    assert line[..HeaderIndent] == indent;
    assert line[HeaderIndent..HeaderIndent + |HeaderOpen|] == HeaderOpen;
    assert line[|line| - |HeaderClose|..] == HeaderClose;
    assert line[HeaderIndent + |HeaderOpen|..|line| - |HeaderClose|] == name;
  }

  /** The only `["k"]` a header line holds is its own name. */
  lemma HeaderKeyOccurrence(line: string, name: string, key: string, i: nat)
    requires HeaderName(line) == Some(name)
    requires ContainsAt(line, HeaderOpen + key + "\"]", i)
    ensures i == HeaderIndent && key == name
  {
    var lit := HeaderOpen + key + "\"]";
    var n := |name|;
    assert line[i] == lit[0] == '[';
    HeaderCharAt(line, name, i);
    var q := HeaderIndent + 2 + |key|;
    assert line[q] == lit[2 + |key|] == '"';
    HeaderCharAt(line, name, q);
    forall k | 0 <= k < n
      ensures key[k] == name[k]
    {
      assert key[k] == lit[2 + k] == line[HeaderIndent + 2 + k];
      HeaderCharAt(line, name, HeaderIndent + 2 + k);
    }
  }

  /** The character at each position of a header line: white space, `["`,
      the name's letters, then `"] = {`. */
  lemma HeaderCharAt(line: string, name: string, k: nat)
    requires HeaderName(line) == Some(name) && k < |line|
    ensures k < HeaderIndent ==> IsSpace(line[k])
    ensures k == HeaderIndent <==> line[k] == '['
    ensures HeaderIndent + 2 <= k < HeaderIndent + 2 + |name| ==> line[k] == name[k - HeaderIndent - 2]
    ensures HeaderIndent + 2 <= k ==> (line[k] == '"' <==> k == HeaderIndent + 2 + |name|)
  {
    var w := line[..HeaderIndent];
    var n := |name|;
    assert line == w + HeaderOpen + name + HeaderClose;
    assert |line| == HeaderIndent + 2 + n + 6;
    if k < HeaderIndent {
      assert line[k] == w[k];
    } else if k < HeaderIndent + 2 {
      assert line[k] == HeaderOpen[k - HeaderIndent];
    } else if k < HeaderIndent + 2 + n {
      assert line[k] == name[k - HeaderIndent - 2];
      assert IsLetter(name[k - HeaderIndent - 2]);
    } else {
      assert line[k] == HeaderClose[k - HeaderIndent - 2 - n];
    }
  }

  // ---------------------------------------------------------------------
  // Fields: /\["race"\]\s*=\s*"([^"]+)",/  /\["class"\]...  /\["level"\]\s*=\s*(\d+),/

  /** `\s*=\s*` at `i`: the position after it. */
  function EqualsAt(s: string, i: nat): (r: Option<nat>)
    requires i <= |s|
    ensures r.Some? ==> i < r.value <= |s|
  {
    var j := i + Run(s, i, Space);
    if j < |s| && s[j] == '=' then Some(j + 1 + Run(s, j + 1, Space)) else None
  }

  /** `["key"]\s*=\s*` followed by a quoted non-empty value and `,`
      (`quoted`), or by digits and `,` (otherwise), starting at `i`. */
  predicate FieldAt(s: string, i: nat, key: string, quoted: bool)
    requires i <= |s|
  {
    var lit := HeaderOpen + key + "\"]";
    && ContainsAt(s, lit, i)
    && match EqualsAt(s, i + |lit|)
       case None => false
       case Some(j) =>
         if quoted then
           && j < |s| && s[j] == '"'
           && var n := Run(s, j + 1, Not('"'));
              n >= 1 && j + n + 2 < |s| && s[j + 1 + n] == '"' && s[j + 2 + n] == ','
         else
           var n := Run(s, j, Digit);
           n >= 1 && j + n < |s| && s[j + n] == ','
  }

  // ---------------------------------------------------------------------
  // Items: /\[\d+\]\s*=\s*"(\d+):{8}\d+:{9};*(\d*)"/  and  /(\d+):{8}\d+:{9};*(\d*)/

  /** What an item pattern captures: the item id, the count suffix and the
      position just after the suffix. */
  datatype ItemCapture = ItemCapture(id: string, count: string, end: nat)

  /** `(\d+):{8}\d+:{9};*(\d*)` at `i`: a digit run, exactly eight colons,
      a digit run, nine colons, any semicolons, optional count digits. */
  function ItemBodyAt(s: string, i: nat): (r: Option<ItemCapture>)
    requires i <= |s|
    ensures r.Some? ==> |r.value.id| >= 1 && AllDigits(r.value.id) && AllDigits(r.value.count)
    ensures r.Some? ==> r.value.end <= |s|
  {
    var a := Run(s, i, Digit);
    if a == 0 || Run(s, i + a, Is(':')) != 8 then None
    else
      RunShape(s, i, Digit);
      ItemAfterId(s, i, i + a)
  }

  /** The item body once the id `s[i..j]` and its eight colons are read:
      a digit run and nine colons, then the count. */
  function ItemAfterId(s: string, i: nat, j: nat): (r: Option<ItemCapture>)
    requires i < j && j + 8 <= |s| && AllDigits(s[i..j])
    ensures r.Some? ==> r.value.id == s[i..j] && AllDigits(r.value.count) && r.value.end <= |s|
  {
    var k := j + 8;
    var b := Run(s, k, Digit);
    if b == 0 || Run(s, k + b, Is(':')) < 9 then None
    else Some(ItemCount(s, k + b + 9).(id := s[i..j]))
  }

  /** `;*(\d*)` at `p`: the semicolons, then the captured count digits. */
  function ItemCount(s: string, p: nat): (r: ItemCapture)
    requires p <= |s|
    ensures AllDigits(r.count) && p <= r.end <= |s|
  {
    var q := p + Run(s, p, Is(';'));
    var e := q + Run(s, q, Digit);
    RunShape(s, q, Digit);
    ItemCapture("", s[q..e], e)
  }

  /** `\[\d+\]\s*=\s*"` then the item body then `"`, starting at `i`. */
  function IndexedItemAt(s: string, i: nat): (r: Option<ItemCapture>)
    requires i <= |s|
    ensures r.Some? ==> |r.value.id| >= 1 && AllDigits(r.value.id) && AllDigits(r.value.count)
  {
    if !(i < |s| && s[i] == '[') then None
    else
      var d := Run(s, i + 1, Digit);
      if d == 0 || i + 1 + d >= |s| || s[i + 1 + d] != ']' then None
      else
        QuotedItemAt(s, i + 2 + d)
  }

  /** The item body fails where its id is not followed by exactly eight
      colons. */
  lemma ItemBodyNeedsEightColons(s: string, i: nat, a: nat)
    requires i <= |s| && Run(s, i, Digit) == a && Run(s, i + a, Is(':')) != 8
    ensures ItemBodyAt(s, i).None?
  {
  }

  /** `\s*=\s*"` then the item body then `"`, starting at `p`. */
  function QuotedItemAt(s: string, p: nat): (r: Option<ItemCapture>)
    requires p <= |s|
    ensures r.Some? ==> |r.value.id| >= 1 && AllDigits(r.value.id) && AllDigits(r.value.count)
  {
    match EqualsAt(s, p)
    case None => None
    case Some(j) =>
      if j >= |s| || s[j] != '"' then None
      else
        match ItemBodyAt(s, j + 1)
        case None => None
        case Some(c) => if c.end < |s| && s[c.end] == '"' then Some(c) else None
  }

  // ---------------------------------------------------------------------
  // Leftmost match

  /** The patterns `parseData` searches a line for. */
  datatype Pattern =
    | QuotedField(key: string)   // /\["key"\]\s*=\s*"([^"]+)",/
    | NumberField(key: string)   // /\["key"\]\s*=\s*(\d+),/
    | IndexedItem                // /\[\d+\]\s*=\s*"(\d+):{8}\d+:{9};*(\d*)"/
    | BareItem                   // /(\d+):{8}\d+:{9};*(\d*)/
    | Digits                     // /(\d+)/

  predicate MatchesAt(p: Pattern, s: string, i: nat)
    requires i <= |s|
  {
    match p
    case QuotedField(key) => FieldAt(s, i, key, true)
    case NumberField(key) => FieldAt(s, i, key, false)
    case IndexedItem => IndexedItemAt(s, i).Some?
    case BareItem => ItemBodyAt(s, i).Some?
    case Digits => i < |s| && IsDigit(s[i])
  }

  /** The start of the leftmost match of `p` at or after `from`, as
      `String.prototype.match` finds it. */
  function Leftmost(p: Pattern, s: string, from: nat): (r: Option<nat>)
    requires from <= |s|
    ensures r.Some? ==> from <= r.value <= |s| && MatchesAt(p, s, r.value)
    ensures r.Some? ==> forall k | from <= k < r.value :: !MatchesAt(p, s, k)
    ensures r.None? ==> forall k | from <= k <= |s| :: !MatchesAt(p, s, k)
    decreases |s| - from
  {
    if MatchesAt(p, s, from) then Some(from)
    else if from == |s| then None
    else Leftmost(p, s, from + 1)
  }

  /** A match with nothing matching in front of it is the leftmost one. */
  lemma LeftmostIs(p: Pattern, s: string, from: nat, i: nat)
    requires from <= i <= |s| && MatchesAt(p, s, i)
    requires forall k | from <= k < i :: !MatchesAt(p, s, k)
    ensures Leftmost(p, s, from) == Some(i)
  {
    var r := Leftmost(p, s, from);
  }

  /** `line.match(p)` is `null`. */
  predicate NoMatch(p: Pattern, line: string) {
    Leftmost(p, line, 0).None?
  }

  // ---------------------------------------------------------------------
  // What a line yields

  /** One item occurrence: the captured id and the count it adds. */
  datatype ItemHit = ItemHit(id: string, count: nat)

  /** `parseInt(countStr || '1', 10)` */
  function CountValue(text: string): nat
    requires AllDigits(text)
  {
    if |text| == 0 then 1 else DecimalValue(text)
  }

  /** A line whose only `[` opens it, where the indexed pattern fails,
      yields no item: the bare pattern is not tried on a line holding `[`. */
  lemma FirstBracketOnly(line: string)
    requires |line| > 0 && line[0] == '[' && IndexedItemAt(line, 0).None?
    requires forall k | 0 < k < |line| :: line[k] != '['
    ensures LineItem(line) == None
  {
    forall k | 0 <= k <= |line|
      ensures !MatchesAt(IndexedItem, line, k)
    {
      if 0 < k < |line| {
        assert line[k] != '[';
      }
    }
  }

  /** `arrayItemMatch || directItemMatch`: the indexed form first; the bare
      form only on a line without `[`. */
  function LineItem(line: string): (r: Option<ItemHit>)
    ensures r.Some? ==> |r.value.id| >= 1 && AllDigits(r.value.id)
  {
    match Leftmost(IndexedItem, line, 0)
    case Some(i) =>
      var c := IndexedItemAt(line, i).value;
      Some(ItemHit(c.id, CountValue(c.count)))
    case None =>
      if '[' in line then None
      else
        match Leftmost(BareItem, line, 0)
        case Some(i) =>
          var c := ItemBodyAt(line, i).value;
          Some(ItemHit(c.id, CountValue(c.count)))
        case None => None
  }

  /** The money a line adds: on a line containing `money`, the value of its
      first digit run (`line.match(/(\d+)/)`), if it has one. */
  function LineMoney(line: string): (r: Option<nat>)
    ensures r.Some? ==> Contains(line, MoneyKey)
    ensures r.Some? <==> Contains(line, MoneyKey) && exists k | 0 <= k < |line| :: IsDigit(line[k])
  {
    if !Contains(line, MoneyKey) then None
    else
      match Leftmost(Digits, line, 0)
      case Some(i) =>
        RunShape(line, i, Digit);
        Some(DecimalValue(line[i..i + Run(line, i, Digit)]))
      case None =>
        assert forall k | 0 <= k < |line| :: !IsDigit(line[k]) by {
          forall k | 0 <= k < |line|
            ensures !IsDigit(line[k])
          {
            assert !MatchesAt(Digits, line, k);
          }
        }
        None
  }

  /** `match(...)[1]` on a `null` match throws: a line containing `race`,
      `class` or `level` that does not match the field pattern for it. */
  predicate FieldCrash(line: string): (r: bool)
    ensures r ==> Contains(line, RaceKey) || Contains(line, ClassKey) || Contains(line, LevelKey)
  {
    || (Contains(line, RaceKey) && NoMatch(QuotedField(RaceKey), line))
    || (Contains(line, ClassKey) && NoMatch(QuotedField(ClassKey), line))
    || (Contains(line, LevelKey) && NoMatch(NumberField(LevelKey), line))
  }

  // ---------------------------------------------------------------------
  // Well-formed field lines

  /** A field as the dump writes it: `["key"] = "value",` (`quoted`) or
      `["key"] = value,`. */
  function FieldText(key: string, value: string, quoted: bool): string {
    HeaderOpen + key + "\"]" + " = " + (if quoted then "\"" + value + "\"" else value) + ","
  }

  /** What each pattern accepts as the value: characters other than `"`
      for a quoted field, digits for a numeric one, at least one of them. */
  predicate FieldValue(value: string, quoted: bool) {
    && |value| >= 1
    && (forall t | 0 <= t < |value| :: InClass(if quoted then Not('"') else Digit, value[t]))
  }

  /** The field text written at `i` of `s`. */
  predicate FieldTextAt(s: string, i: nat, key: string, value: string, quoted: bool) {
    var text := FieldText(key, value, quoted);
    i + |text| <= |s| && s[i..i + |text|] == text
  }

  /** The character at each position of a field text past its `["key"]`. */
  lemma FieldTextChar(key: string, value: string, quoted: bool, t: nat)
    requires t < |FieldText(key, value, quoted)|
    ensures var o := |HeaderOpen + key + "\"]"|; var text := FieldText(key, value, quoted);
      && |text| == o + 4 + |value| + (if quoted then 2 else 0)
      && text[..o] == HeaderOpen + key + "\"]"
      && (t == o || t == o + 2 ==> text[t] == ' ')
      && (t == o + 1 ==> text[t] == '=')
      && (quoted && (t == o + 3 || t == o + 4 + |value|) ==> text[t] == '"')
      && (quoted && o + 4 <= t < o + 4 + |value| ==> text[t] == value[t - o - 4])
      && (!quoted && o + 3 <= t < o + 3 + |value| ==> text[t] == value[t - o - 3])
      && (t == |text| - 1 ==> text[t] == ',')
  {
    var lit := HeaderOpen + key + "\"]";
    var body := if quoted then "\"" + value + "\"" else value;
    var text := FieldText(key, value, quoted);
    assert text == lit + " = " + body + ",";
    var o := |lit|;
    if o <= t < o + 3 {
      assert text[t] == " = "[t - o];
    } else if o + 3 <= t < o + 3 + |body| {
      assert text[t] == body[t - o - 3];
    }
  }

  /** The line's character at offset `t` of a field text written at `i`. */
  lemma FieldLineChar(s: string, i: nat, key: string, value: string, quoted: bool, t: nat)
    requires FieldTextAt(s, i, key, value, quoted) && t < |FieldText(key, value, quoted)|
    ensures s[i + t] == FieldText(key, value, quoted)[t]
  {
    assert s[i..i + |FieldText(key, value, quoted)|][t] == s[i + t];
  }

  /** The `["key"]` of a field text written at `i`, and the ` = ` after it. */
  lemma FieldTextHead(s: string, i: nat, key: string, value: string, quoted: bool)
    requires FieldTextAt(s, i, key, value, quoted)
    ensures var lit := HeaderOpen + key + "\"]"; var p := i + |lit|;
      && ContainsAt(s, lit, i)
      && p + 3 < |s| && s[p] == ' ' && s[p + 1] == '=' && s[p + 2] == ' '
  {
    var lit := HeaderOpen + key + "\"]";
    var text := FieldText(key, value, quoted);
    var o := |lit|;
    FieldTextChar(key, value, quoted, o);
    FieldTextChar(key, value, quoted, o + 1);
    FieldTextChar(key, value, quoted, o + 2);
    FieldLineChar(s, i, key, value, quoted, o);
    FieldLineChar(s, i, key, value, quoted, o + 1);
    FieldLineChar(s, i, key, value, quoted, o + 2);
    assert s[i..i + o] == s[i..i + |text|][..o];
  }

  /** A well-formed quoted field text at `i` matches the quoted pattern. */
  lemma QuotedFieldOfText(s: string, i: nat, key: string, value: string)
    requires FieldTextAt(s, i, key, value, true) && FieldValue(value, true)
    ensures FieldAt(s, i, key, true)
  {
    var p := i + |HeaderOpen + key + "\"]"|;
    var o := p - i;
    var n := |value|;
    FieldTextHead(s, i, key, value, true);
    FieldTextChar(key, value, true, o + 3);
    FieldLineChar(s, i, key, value, true, o + 3);
    forall k | p + 4 <= k < p + 4 + n
      ensures InClass(Not('"'), s[k])
    {
      FieldTextChar(key, value, true, k - i);
      FieldLineChar(s, i, key, value, true, k - i);
    }
    FieldTextChar(key, value, true, o + 4 + n);
    FieldLineChar(s, i, key, value, true, o + 4 + n);
    FieldTextChar(key, value, true, o + 5 + n);
    FieldLineChar(s, i, key, value, true, o + 5 + n);
    SpacedEquals(s, p);
    RunExactly(s, p + 4, Not('"'), n);
  }

  /** A well-formed numeric field text at `i` matches the numeric pattern. */
  lemma NumberFieldOfText(s: string, i: nat, key: string, value: string)
    requires FieldTextAt(s, i, key, value, false) && FieldValue(value, false)
    ensures FieldAt(s, i, key, false)
  {
    var p := i + |HeaderOpen + key + "\"]"|;
    var o := p - i;
    var n := |value|;
    FieldTextHead(s, i, key, value, false);
    forall k | p + 3 <= k < p + 3 + n
      ensures InClass(Digit, s[k])
    {
      FieldTextChar(key, value, false, k - i);
      FieldLineChar(s, i, key, value, false, k - i);
    }
    assert IsDigit(s[p + 3]);
    FieldTextChar(key, value, false, o + 3 + n);
    FieldLineChar(s, i, key, value, false, o + 3 + n);
    SpacedEquals(s, p);
    RunExactly(s, p + 3, Digit, n);
  }

  /** A line holding a well-formed `["race"] = "v",`, `["class"] = "v",`
      or `["level"] = digits,` field matches that field's pattern, so the
      loop reads the field instead of throwing. */
  lemma FieldLineMatches(line: string, i: nat, key: string, value: string, quoted: bool)
    requires FieldTextAt(line, i, key, value, quoted) && FieldValue(value, quoted)
    ensures Leftmost(if quoted then QuotedField(key) else NumberField(key), line, 0).Some?
    ensures !NoMatch(if quoted then QuotedField(key) else NumberField(key), line)
  {
    if quoted {
      QuotedFieldOfText(line, i, key, value);
    } else {
      NumberFieldOfText(line, i, key, value);
    }
    assert MatchesAt(if quoted then QuotedField(key) else NumberField(key), line, i);
  }

  /** A race, class or level field line, written as the dump writes it,
      whose line names none of the other two keys does not throw. */
  lemma FieldLineNoCrash(line: string, i: nat, key: string, value: string)
    requires key == RaceKey || key == ClassKey || key == LevelKey
    requires FieldTextAt(line, i, key, value, key != LevelKey) && FieldValue(value, key != LevelKey)
    requires key != RaceKey ==> !Contains(line, RaceKey)
    requires key != ClassKey ==> !Contains(line, ClassKey)
    requires key != LevelKey ==> !Contains(line, LevelKey)
    ensures !FieldCrash(line)
  {
    FieldLineMatches(line, i, key, value, key != LevelKey);
  }

  // ---------------------------------------------------------------------
  // Header lines against the other patterns

  /** No field pattern matches a header line at any one position: its
      `["name"]` is followed by ` = {`, neither a quoted value nor digits. */
  lemma HeaderMatchesNoField(line: string, key: string, quoted: bool, i: nat)
    requires HeaderName(line).Some? && i <= |line|
    ensures !FieldAt(line, i, key, quoted)
  {
    var name := HeaderName(line).value;
    var lit := HeaderOpen + key + "\"]";
    if FieldAt(line, i, key, quoted) {
      HeaderKeyOccurrence(line, name, key, i);
    }
  }

  /** A header line holds the equip marker exactly when the character is
      called `equip`. */
  lemma HeaderEquipMarker(line: string)
    requires HeaderName(line).Some?
    ensures Contains(line, EquipMarker) <==> HeaderName(line).value == "equip"
  {
    var name := HeaderName(line).value;
    if Contains(line, EquipMarker) {
      var i: nat :| i <= |line| && ContainsAt(line, EquipMarker, i);
      EquipMarkerSpelling();
      HeaderKeyOccurrence(line, name, "equip", i);
    }
    if name == "equip" {
      var w := line[..HeaderIndent];
      var lit := HeaderOpen + "equip" + "\"]";
      EquipMarkerSpelling();
      assert HeaderClose == "\"]" + " = {";
      assert line == w + lit + " = {";
      assert line[HeaderIndent..HeaderIndent + |lit|] == lit;
      assert ContainsAt(line, EquipMarker, HeaderIndent);
    }
  }

  /** The equip marker is the `["k"]` of the key `equip`. */
  lemma EquipMarkerSpelling()
    ensures EquipMarker == HeaderOpen + "equip" + "\"]"
  {
    assert |EquipMarker| == 9;
    forall k | 0 <= k < 9
      ensures EquipMarker[k] == (HeaderOpen + "equip" + "\"]")[k]
    {
    }
  }

  /** A key inside the name of a header line is a key the line contains. */
  lemma HeaderContainsNamePart(line: string, key: string)
    requires HeaderName(line).Some? && Contains(HeaderName(line).value, key)
    ensures Contains(line, key)
  {
    var name := HeaderName(line).value;
    var i: nat :| i <= |name| && ContainsAt(name, key, i);
    var j := HeaderIndent + |HeaderOpen| + i;
    assert line[j..j + |key|] == name[i..i + |key|];
    assert ContainsAt(line, key, j);
  }

  // ---------------------------------------------------------------------
  // Lines that yield an item or money

  /** `n` copies of `c`. */
  function Repeat(c: char, n: nat): (r: string)
    ensures |r| == n && forall k | 0 <= k < n :: r[k] == c
  {
    seq(n, _ => c)
  }

  /** An item slot as the dump writes it: the id, eight colons, a second
      number, nine colons, `semis` semicolons and the count digits. */
  function Slot(id: string, mid: string, semis: nat, count: string): string {
    id + Repeat(':', 8) + mid + Repeat(':', 9) + Repeat(';', semis) + count
  }

  /** The conditions under which `Slot` spells a well-formed slot. */
  predicate SlotParts(id: string, mid: string, count: string) {
    |id| >= 1 && AllDigits(id) && |mid| >= 1 && AllDigits(mid) && AllDigits(count)
  }

  /** `s` holds a well-formed slot at `i`, followed by neither a digit nor
      `;`. */
  predicate SlotAt(s: string, i: nat, id: string, mid: string, semis: nat, count: string) {
    var n := |Slot(id, mid, semis, count)|;
    && SlotParts(id, mid, count)
    && i + n <= |s| && s[i..i + n] == Slot(id, mid, semis, count)
    && (i + n == |s| || (!IsDigit(s[i + n]) && s[i + n] != ';'))
  }

  /** `s[i..j]` consists of `cls` characters. */
  predicate Span(s: string, i: nat, j: nat, cls: CharClass)
    requires i <= j <= |s|
  {
    forall t | i <= t < j :: InClass(cls, s[t])
  }

  /** The character at each position of a slot. */
  lemma SlotChar(id: string, mid: string, semis: nat, count: string, t: nat)
    requires t < |Slot(id, mid, semis, count)|
    ensures var slot := Slot(id, mid, semis, count);
            var j := |id|; var k := j + 8; var m := k + |mid|; var p := m + 9; var q := p + semis;
            && (t < j ==> slot[t] == id[t])
            && (j <= t < k ==> slot[t] == ':')
            && (k <= t < m ==> slot[t] == mid[t - k])
            && (m <= t < p ==> slot[t] == ':')
            && (p <= t < q ==> slot[t] == ';')
            && (q <= t ==> slot[t] == count[t - q])
  {
    var a := id + Repeat(':', 8);
    var b := a + mid;
    var c := b + Repeat(':', 9);
    var d := c + Repeat(';', semis);
    assert Slot(id, mid, semis, count) == d + count;
    if t < |d| {
      assert (d + count)[t] == d[t];
      if t < |c| {
        assert d[t] == c[t];
        if t < |b| {
          assert c[t] == b[t];
          if t < |a| {
            assert b[t] == a[t];
          }
        }
      }
    }
  }

  /** Where each part of a slot sits in a string that holds it at `i`. */
  lemma SlotLayout(s: string, i: nat, id: string, mid: string, semis: nat, count: string)
    requires SlotAt(s, i, id, mid, semis, count)
    ensures var j := i + |id|; var k := j + 8; var m := k + |mid|;
            var p := m + 9; var q := p + semis; var e := q + |count|;
            && e == i + |Slot(id, mid, semis, count)| && e <= |s|
            && s[i..j] == id && s[q..e] == count
            && Span(s, i, j, Digit) && Span(s, j, k, Is(':')) && Span(s, k, m, Digit)
            && Span(s, m, p, Is(':')) && Span(s, p, q, Is(';')) && Span(s, q, e, Digit)
  {
    var slot := Slot(id, mid, semis, count);
    var j := i + |id|;
    var k := j + 8;
    var m := k + |mid|;
    var p := m + 9;
    var q := p + semis;
    var e := q + |count|;
    assert e == i + |slot|;
    forall t | i <= t < e
      ensures s[t] == slot[t - i]
      ensures t < j ==> s[t] == id[t - i]
      ensures j <= t < k ==> s[t] == ':'
      ensures k <= t < m ==> IsDigit(s[t])
      ensures m <= t < p ==> s[t] == ':'
      ensures p <= t < q ==> s[t] == ';'
      ensures q <= t ==> s[t] == count[t - q]
    {
      assert s[t] == s[i..e][t - i];
      SlotChar(id, mid, semis, count, t - i);
    }
    assert s[i..j] == id;
    assert s[q..e] == count;
  }

  /** The count part at `p`: semicolons up to `q`, digits up to `e`, then
      neither. */
  lemma CountPart(s: string, p: nat, q: nat, e: nat)
    requires p <= q <= e <= |s| && Span(s, p, q, Is(';')) && Span(s, q, e, Digit)
    requires e == |s| || (!IsDigit(s[e]) && s[e] != ';')
    ensures ItemCount(s, p) == ItemCapture("", s[q..e], e)
  {
    RunExactly(s, p, Is(';'), q - p);
    RunExactly(s, q, Digit, e - q);
  }

  /** The part after the id `s[i..j]`: eight colons, digits up to `m`,
      nine colons. */
  lemma MidPart(s: string, i: nat, j: nat, m: nat)
    requires i < j && j + 8 < m && m + 9 <= |s| && AllDigits(s[i..j])
    requires Span(s, j + 8, m, Digit) && Span(s, m, m + 9, Is(':'))
    requires s[m] == ':'
    ensures ItemAfterId(s, i, j) == Some(ItemCount(s, m + 9).(id := s[i..j]))
  {
    RunExactly(s, j + 8, Digit, m - j - 8);
    RunShape(s, m, Is(':'));
  }

  /** The id part: digits up to `j`, then exactly eight colons. */
  lemma IdPart(s: string, i: nat, j: nat)
    requires i < j && j + 8 < |s| && Span(s, i, j, Digit) && Span(s, j, j + 8, Is(':'))
    requires s[j + 8] != ':'
    ensures AllDigits(s[i..j])
    ensures ItemBodyAt(s, i) == ItemAfterId(s, i, j)
  {
    RunExactly(s, i, Digit, j - i);
    RunExactly(s, j, Is(':'), 8);
  }

  /** The item body read off the spans of its parts: digits up to `j`,
      eight colons, digits up to `m`, nine colons, semicolons up to `q`,
      digits up to `e`, then neither a digit nor `;`. */
  lemma ItemBodyOfSpans(s: string, i: nat, j: nat, m: nat, q: nat, e: nat, id: string, count: string)
    requires i < j && j + 8 < m && m + 9 <= q <= e <= |s|
    requires Span(s, i, j, Digit) && Span(s, j, j + 8, Is(':')) && Span(s, j + 8, m, Digit)
    requires Span(s, m, m + 9, Is(':')) && Span(s, m + 9, q, Is(';')) && Span(s, q, e, Digit)
    requires e == |s| || (!IsDigit(s[e]) && s[e] != ';')
    requires s[i..j] == id && s[q..e] == count
    ensures ItemBodyAt(s, i) == Some(ItemCapture(id, count, e))
  {
    CountPart(s, m + 9, q, e);
    assert s[m] == ':';
    assert s[j + 8] != ':';
    IdPart(s, i, j);
    MidPart(s, i, j, m);
  }

  /** The item body matches a slot at its start and captures its id and
      count, when the slot is followed by neither a digit nor `;`. */
  lemma ItemBodyOfSlot(s: string, i: nat, id: string, mid: string, semis: nat, count: string)
    requires SlotAt(s, i, id, mid, semis, count)
    ensures ItemBodyAt(s, i) == Some(ItemCapture(id, count, i + |Slot(id, mid, semis, count)|))
  {
    SlotLayout(s, i, id, mid, semis, count);
    var j := i + |id|;
    var m := j + 8 + |mid|;
    var q := m + 9 + semis;
    ItemBodyOfSpans(s, i, j, m, q, q + |count|, id, count);
  }

  /** `s[i..e]` spells a well-formed slot with item id `id` and count
      digits `count`. */
  ghost predicate SlotSpelled(s: string, i: nat, e: nat, id: string, count: string) {
    && i <= e <= |s| && AllDigits(count)
    && exists mid: string, semis: nat :: SlotParts(id, mid, count) && s[i..e] == Slot(id, mid, semis, count)
  }

  /** Where the parts of a captured item body sit: digits up to `j`, eight
      colons, digits up to `m`, nine colons, semicolons up to `q`, and the
      count digits up to the end of the capture. */
  lemma ItemBodyParts(s: string, i: nat) returns (j: nat, m: nat, q: nat)
    requires i <= |s| && ItemBodyAt(s, i).Some?
    ensures var c := ItemBodyAt(s, i).value;
            && i < j && j + 8 < m && m + 9 <= q <= c.end <= |s|
            && Span(s, i, j, Digit) && Span(s, j, j + 8, Is(':')) && Span(s, j + 8, m, Digit)
            && Span(s, m, m + 9, Is(':')) && Span(s, m + 9, q, Is(';')) && Span(s, q, c.end, Digit)
            && c.id == s[i..j] && c.count == s[q..c.end]
            && (c.end == |s| || !IsDigit(s[c.end]))
  {
    j := i + Run(s, i, Digit);
    RunShape(s, i, Digit);
    RunShape(s, j, Is(':'));
    assert ItemBodyAt(s, i) == ItemAfterId(s, i, j);
    m, q := ItemAfterIdParts(s, i, j);
  }

  /** The spans an item body consists of past its id and eight colons. */
  lemma ItemAfterIdParts(s: string, i: nat, j: nat) returns (m: nat, q: nat)
    requires i < j && j + 8 <= |s| && AllDigits(s[i..j]) && ItemAfterId(s, i, j).Some?
    ensures var c := ItemAfterId(s, i, j).value;
            && j + 8 < m && m + 9 <= q <= c.end <= |s|
            && Span(s, j + 8, m, Digit) && Span(s, m, m + 9, Is(':'))
            && Span(s, m + 9, q, Is(';')) && Span(s, q, c.end, Digit)
            && c.count == s[q..c.end]
            && (c.end == |s| || !IsDigit(s[c.end]))
  {
    var k := j + 8;
    m := k + Run(s, k, Digit);
    RunShape(s, k, Digit);
    RunShape(s, m, Is(':'));
    q := ItemCountParts(s, m + 9);
  }

  /** The semicolons and count digits an item count consists of. */
  lemma ItemCountParts(s: string, p: nat) returns (q: nat)
    requires p <= |s|
    ensures var c := ItemCount(s, p);
            && p <= q <= c.end <= |s|
            && Span(s, p, q, Is(';')) && Span(s, q, c.end, Digit)
            && c.count == s[q..c.end]
            && (c.end == |s| || !IsDigit(s[c.end]))
  {
    q := p + Run(s, p, Is(';'));
    RunShape(s, p, Is(';'));
    RunShape(s, q, Digit);
  }

  /** Spans of the parts of a slot spell that slot. */
  lemma SpansSpellSlot(s: string, i: nat, j: nat, m: nat, q: nat, e: nat)
    requires i < j && j + 8 < m && m + 9 <= q <= e <= |s|
    requires Span(s, i, j, Digit) && Span(s, j, j + 8, Is(':')) && Span(s, j + 8, m, Digit)
    requires Span(s, m, m + 9, Is(':')) && Span(s, m + 9, q, Is(';')) && Span(s, q, e, Digit)
    ensures SlotParts(s[i..j], s[j + 8..m], s[q..e])
    ensures s[i..e] == Slot(s[i..j], s[j + 8..m], q - (m + 9), s[q..e])
  {
    var id, mid, semis, count := s[i..j], s[j + 8..m], q - (m + 9), s[q..e];
    var slot := Slot(id, mid, semis, count);
    assert |slot| == e - i;
    forall t | 0 <= t < |slot|
      ensures s[i..e][t] == slot[t]
    {
      SlotChar(id, mid, semis, count, t);
      if t < j - i {
        assert id[t] == s[i + t];
      } else if j + 8 - i <= t < m - i {
        assert mid[t - (j + 8 - i)] == s[i + t];
      } else if q - i <= t {
        assert count[t - (q - i)] == s[i + t];
      }
    }
    assert forall t | 0 <= t < |id| :: IsDigit(id[t]) by {
      forall t | 0 <= t < |id| ensures IsDigit(id[t]) { assert id[t] == s[i + t]; }
    }
    assert forall t | 0 <= t < |mid| :: IsDigit(mid[t]) by {
      forall t | 0 <= t < |mid| ensures IsDigit(mid[t]) { assert mid[t] == s[j + 8 + t]; }
    }
    assert forall t | 0 <= t < |count| :: IsDigit(count[t]) by {
      forall t | 0 <= t < |count| ensures IsDigit(count[t]) { assert count[t] == s[q + t]; }
    }
  }

  /** Conversely, whatever the item body captures was spelled as a slot:
      the captured id, eight colons, a digit run, nine colons, semicolons
      and the captured count, with no digit right after it. */
  lemma ItemBodySpelled(s: string, i: nat)
    requires i <= |s| && ItemBodyAt(s, i).Some?
    ensures var c := ItemBodyAt(s, i).value;
            && SlotSpelled(s, i, c.end, c.id, c.count)
            && (c.end == |s| || !IsDigit(s[c.end]))
  {
    var c := ItemBodyAt(s, i).value;
    var j, m, q := ItemBodyParts(s, i);
    SpansSpellSlot(s, i, j, m, q, c.end);
  }

  /** Every item a line yields comes from a slot spelled on that line,
      with `parseInt` of its count or 1 for an empty count; the slot is
      closed by `"` (the indexed form) or the line holds no `[` (the bare
      form). */
  lemma LineItemSlot(line: string)
    requires LineItem(line).Some?
    ensures var h := LineItem(line).value;
            exists i: nat, e: nat, count: string ::
              && SlotSpelled(line, i, e, h.id, count)
              && h.count == CountValue(count)
              && ((e < |line| && line[e] == '"') || '[' !in line)
  {
    var h := LineItem(line).value;
    match Leftmost(IndexedItem, line, 0)
    case Some(i) =>
      var c := IndexedItemAt(line, i).value;
      IndexedItemSpelled(line, i);
      var p: nat :| SlotSpelled(line, p, c.end, c.id, c.count) && c.end < |line| && line[c.end] == '"';
      assert h.count == CountValue(c.count);
    case None =>
      var i := Leftmost(BareItem, line, 0).value;
      var c := ItemBodyAt(line, i).value;
      ItemBodySpelled(line, i);
      assert h.count == CountValue(c.count);
  }

  /** An indexed entry captures the slot spelled inside its quotes. */
  lemma IndexedItemSpelled(s: string, i: nat)
    requires i <= |s| && IndexedItemAt(s, i).Some?
    ensures var c := IndexedItemAt(s, i).value;
            && (exists p: nat :: SlotSpelled(s, p, c.end, c.id, c.count))
            && c.end < |s| && s[c.end] == '"'
  {
    var c := IndexedItemAt(s, i).value;
    var d := Run(s, i + 1, Digit);
    var j := EqualsAt(s, i + 2 + d).value;
    assert QuotedItemAt(s, i + 2 + d) == Some(c);
    assert ItemBodyAt(s, j + 1) == Some(c);
    ItemBodySpelled(s, j + 1);
  }

  /** No character of a well-formed slot is `[`. */
  lemma SlotHasNoBracket(id: string, mid: string, semis: nat, count: string)
    requires SlotParts(id, mid, count)
    ensures forall t | 0 <= t < |Slot(id, mid, semis, count)| :: Slot(id, mid, semis, count)[t] != '['
  {
    forall t | 0 <= t < |Slot(id, mid, semis, count)|
      ensures Slot(id, mid, semis, count)[t] != '['
    {
      SlotChar(id, mid, semis, count, t);
    }
  }

  /** Without `[` the indexed pattern matches nowhere. */
  lemma NoIndexedWithoutBracket(s: string)
    requires forall t | 0 <= t < |s| :: s[t] != '['
    ensures Leftmost(IndexedItem, s, 0).None?
  {
    forall t | 0 <= t <= |s|
      ensures !MatchesAt(IndexedItem, s, t)
    {
    }
  }

  /** The bare pattern starts with a digit, so it matches nowhere before
      the first one. */
  lemma NoBareBeforeDigit(s: string, i: nat)
    requires i <= |s| && forall t | 0 <= t < i :: !IsDigit(s[t])
    ensures forall t | 0 <= t < i :: !MatchesAt(BareItem, s, t)
  {
  }

  /** Where the parts of a bare line sit in it. */
  lemma BareLayout(pre: string, slot: string, post: string)
    ensures var line := pre + slot + post;
      && |line| == |pre| + |slot| + |post|
      && (forall t | 0 <= t < |pre| :: line[t] == pre[t])
      && line[|pre|..|pre| + |slot|] == slot
      && (forall t | 0 <= t < |slot| :: line[|pre| + t] == slot[t])
      && (forall t | 0 <= t < |post| :: line[|pre| + |slot| + t] == post[t])
  {
  }

  /** A line whose leftmost bare match is at `i`, with no `[`, counts the
      item body read there. */
  lemma LineItemOfBare(line: string, i: nat, c: ItemCapture)
    requires '[' !in line && Leftmost(BareItem, line, 0) == Some(i) && ItemBodyAt(line, i) == Some(c)
    requires Leftmost(IndexedItem, line, 0).None?
    ensures LineItem(line) == Some(ItemHit(c.id, CountValue(c.count)))
  {
  }

  /** Three `[`-free parts make a `[`-free line. */
  lemma NoBracketJoined(pre: string, slot: string, post: string)
    requires forall t | 0 <= t < |pre| :: pre[t] != '['
    requires forall t | 0 <= t < |slot| :: slot[t] != '['
    requires forall t | 0 <= t < |post| :: post[t] != '['
    ensures forall t | 0 <= t < |pre + slot + post| :: (pre + slot + post)[t] != '['
  {
    var line := pre + slot + post;
    BareLayout(pre, slot, post);
    forall t | 0 <= t < |line|
      ensures line[t] != '['
    {
      if t < |pre| {
        assert line[t] == pre[t];
      } else if t < |pre| + |slot| {
        assert line[t] == slot[t - |pre|];
      } else {
        assert line[t] == post[t - |pre| - |slot|];
      }
    }
  }

  /** The leftmost bare match of a line whose first digit starts a slot is
      that slot. */
  lemma BareLeftmostAt(line: string, i: nat, id: string, mid: string, semis: nat, count: string)
    requires SlotAt(line, i, id, mid, semis, count)
    requires forall t | 0 <= t < i :: !IsDigit(line[t])
    ensures Leftmost(BareItem, line, 0) == Some(i)
    ensures ItemBodyAt(line, i) == Some(ItemCapture(id, count, i + |Slot(id, mid, semis, count)|))
  {
    ItemBodyOfSlot(line, i, id, mid, semis, count);
    NoBareBeforeDigit(line, i);
    LeftmostIs(BareItem, line, 0, i);
  }

  /** A slot placed between `pre` and `post` sits at `|pre|`, followed by
      neither a digit nor `;` when `post` does not start with one. */
  lemma SlotAtJoined(pre: string, id: string, mid: string, semis: nat, count: string, post: string)
    requires SlotParts(id, mid, count)
    requires |post| == 0 || (!IsDigit(post[0]) && post[0] != ';')
    ensures SlotAt(pre + Slot(id, mid, semis, count) + post, |pre|, id, mid, semis, count)
  {
    var slot := Slot(id, mid, semis, count);
    var line := pre + slot + post;
    assert line[|pre|..|pre| + |slot|] == slot;
    assert |post| > 0 ==> line[|pre| + |slot|] == post[0];
  }

  /** The characters in front of `|pre|` are those of `pre`. */
  lemma PrefixDigitFree(pre: string, rest: string)
    requires forall k | 0 <= k < |pre| :: !IsDigit(pre[k])
    ensures forall t | 0 <= t < |pre| :: !IsDigit((pre + rest)[t])
  {
    forall t | 0 <= t < |pre|
      ensures !IsDigit((pre + rest)[t])
    {
      assert (pre + rest)[t] == pre[t];
    }
  }

  /** A line without `[` whose first digit starts a slot at `i` counts
      that slot. */
  lemma BareItemAt(line: string, i: nat, id: string, mid: string, semis: nat, count: string)
    requires SlotAt(line, i, id, mid, semis, count)
    requires forall t | 0 <= t < i :: !IsDigit(line[t])
    requires forall t | 0 <= t < |line| :: line[t] != '['
    ensures LineItem(line) == Some(ItemHit(id, CountValue(count)))
  {
    NoIndexedWithoutBracket(line);
    BareLeftmostAt(line, i, id, mid, semis, count);
    LineItemOfBare(line, i, ItemCapture(id, count, i + |Slot(id, mid, semis, count)|));
  }

  /** A line without `[` whose first digit starts an item slot counts that
      slot: `parseInt` of its count, or 1 when the count is empty. */
  lemma BareItemLine(pre: string, id: string, mid: string, semis: nat, count: string, post: string)
    requires SlotParts(id, mid, count)
    requires forall k | 0 <= k < |pre| :: !IsDigit(pre[k]) && pre[k] != '['
    requires forall k | 0 <= k < |post| :: post[k] != '['
    requires |post| == 0 || (!IsDigit(post[0]) && post[0] != ';')
    ensures LineItem(pre + Slot(id, mid, semis, count) + post) == Some(ItemHit(id, CountValue(count)))
  {
    var slot := Slot(id, mid, semis, count);
    var line := pre + slot + post;
    SlotHasNoBracket(id, mid, semis, count);
    NoBracketJoined(pre, slot, post);
    SlotAtJoined(pre, id, mid, semis, count, post);
    assert line == pre + (slot + post);
    PrefixDigitFree(pre, slot + post);
    BareItemAt(line, |pre|, id, mid, semis, count);
  }

  /** The text between the index and the slot in an indexed entry:
      `] = "`. */
  const IndexGap := "] = \""

  /** `[`, `d` digits and `] = "` at `i`, followed by an item body: the
      indexed pattern matches there with the body's capture. */
  lemma IndexedItemOfBody(s: string, i: nat, d: nat, c: ItemCapture)
    requires d >= 1 && i + 6 + d <= |s|
    requires s[i] == '[' && Run(s, i + 1, Digit) == d && s[i + 1 + d] == ']'
    requires s[i + 2 + d] == ' ' && s[i + 3 + d] == '=' && s[i + 4 + d] == ' ' && s[i + 5 + d] == '"'
    requires ItemBodyAt(s, i + 6 + d) == Some(c) && c.end < |s| && s[c.end] == '"'
    ensures IndexedItemAt(s, i) == Some(c)
  {
    QuotedItemOfBody(s, i + 2 + d, c);
    assert i < |s| && s[i] == '[';
    assert !(d == 0 || i + 1 + d >= |s| || s[i + 1 + d] != ']');
    assert IndexedItemAt(s, i) == QuotedItemAt(s, i + 2 + d);
  }

  /** ` = "` at `p`, followed by an item body and `"`. */
  lemma QuotedItemOfBody(s: string, p: nat, c: ItemCapture)
    requires p + 4 <= |s| && s[p] == ' ' && s[p + 1] == '=' && s[p + 2] == ' ' && s[p + 3] == '"'
    requires ItemBodyAt(s, p + 4) == Some(c) && c.end < |s| && s[c.end] == '"'
    ensures QuotedItemAt(s, p) == Some(c)
  {
    SpacedEquals(s, p);
  }

  /** `[`, `d` digits and `] = "` at `i` followed by no item body: the
      indexed pattern fails there. */
  lemma IndexedItemWithoutBody(s: string, i: nat, d: nat)
    requires d >= 1 && i + 6 + d <= |s|
    requires s[i] == '[' && Run(s, i + 1, Digit) == d && s[i + 1 + d] == ']'
    requires s[i + 2 + d] == ' ' && s[i + 3 + d] == '=' && s[i + 4 + d] == ' ' && s[i + 5 + d] == '"'
    requires ItemBodyAt(s, i + 6 + d).None?
    ensures IndexedItemAt(s, i).None?
  {
    SpacedEquals(s, i + 2 + d);
    assert !(d == 0 || i + 1 + d >= |s| || s[i + 1 + d] != ']');
    assert IndexedItemAt(s, i) == QuotedItemAt(s, i + 2 + d);
  }

  /** ` = ` at `p`, before a non-space: `\s*=\s*` ends after it. */
  lemma SpacedEquals(s: string, p: nat)
    requires p + 3 < |s| && s[p] == ' ' && s[p + 1] == '=' && s[p + 2] == ' ' && !IsSpace(s[p + 3])
    ensures EqualsAt(s, p) == Some(p + 3)
  {
    RunExactly(s, p, Space, 1);
    RunExactly(s, p + 2, Space, 1);
  }

  /** `[`, `d` digits, `] = "`, a slot and `"` at `i`: the indexed
      pattern matches there and captures the slot's id and count. */
  lemma IndexedItemOfSlot(s: string, i: nat, d: nat, id: string, mid: string, semis: nat, count: string)
    requires d >= 1 && i + 6 + d <= |s|
    requires s[i] == '[' && Span(s, i + 1, i + 1 + d, Digit) && s[i + 1 + d] == ']'
    requires s[i + 2 + d] == ' ' && s[i + 3 + d] == '=' && s[i + 4 + d] == ' ' && s[i + 5 + d] == '"'
    requires SlotAt(s, i + 6 + d, id, mid, semis, count)
    requires var e := i + 6 + d + |Slot(id, mid, semis, count)|; e < |s| && s[e] == '"'
    ensures IndexedItemAt(s, i) == Some(ItemCapture(id, count, i + 6 + d + |Slot(id, mid, semis, count)|))
  {
    RunExactly(s, i + 1, Digit, d);
    ItemBodyOfSlot(s, i + 6 + d, id, mid, semis, count);
    IndexedItemOfBody(s, i, d, ItemCapture(id, count, i + 6 + d + |Slot(id, mid, semis, count)|));
  }

  /** Where the parts of an indexed entry sit in its line. */
  lemma IndexedLayout(pre: string, index: string, slot: string, post: string)
    ensures var line := pre + "[" + index + IndexGap + slot + "\"" + post;
      var i := |pre|;
      var d := |index|;
      && i + 7 + d + |slot| <= |line|
      && line[..i] == pre
      && line[i] == '[' && line[i + 1..i + 1 + d] == index && line[i + 1 + d] == ']'
      && line[i + 2 + d] == ' ' && line[i + 3 + d] == '=' && line[i + 4 + d] == ' ' && line[i + 5 + d] == '"'
      && line[i + 6 + d..i + 6 + d + |slot|] == slot && line[i + 6 + d + |slot|] == '"'
  {
  }

  /** A line whose first `[` starts an indexed entry around a slot counts
      that slot. */
  lemma IndexedItemAtLine(line: string, i: nat, d: nat, id: string, mid: string, semis: nat, count: string)
    requires d >= 1 && i + 6 + d <= |line|
    requires line[i] == '[' && Span(line, i + 1, i + 1 + d, Digit) && line[i + 1 + d] == ']'
    requires line[i + 2 + d] == ' ' && line[i + 3 + d] == '=' && line[i + 4 + d] == ' ' && line[i + 5 + d] == '"'
    requires SlotAt(line, i + 6 + d, id, mid, semis, count)
    requires var e := i + 6 + d + |Slot(id, mid, semis, count)|; e < |line| && line[e] == '"'
    requires forall t | 0 <= t < i :: line[t] != '['
    ensures LineItem(line) == Some(ItemHit(id, CountValue(count)))
  {
    IndexedItemOfSlot(line, i, d, id, mid, semis, count);
    forall t | 0 <= t < i
      ensures !MatchesAt(IndexedItem, line, t)
    {
    }
    LeftmostIs(IndexedItem, line, 0, i);
  }

  /** An indexed entry `[n] = "<slot>"` whose `[` is the first of its
      line counts its slot, whatever follows the closing quote. */
  lemma IndexedItemLine(pre: string, index: string, id: string, mid: string, semis: nat, count: string, post: string)
    requires SlotParts(id, mid, count) && |index| >= 1 && AllDigits(index)
    requires forall k | 0 <= k < |pre| :: pre[k] != '['
    ensures LineItem(pre + "[" + index + IndexGap + Slot(id, mid, semis, count) + "\"" + post)
         == Some(ItemHit(id, CountValue(count)))
  {
    var slot := Slot(id, mid, semis, count);
    var line := pre + "[" + index + IndexGap + slot + "\"" + post;
    var i := |pre|;
    var d := |index|;
    IndexedLayout(pre, index, slot, post);
    forall t | i + 1 <= t < i + 1 + d
      ensures IsDigit(line[t])
    {
      assert line[t] == line[i + 1..i + 1 + d][t - i - 1];
    }
    forall t | 0 <= t < i
      ensures line[t] != '['
    {
      assert line[t] == line[..i][t];
    }
    IndexedItemAtLine(line, i, d, id, mid, semis, count);
  }

  /** A line containing `money` adds the value of its first digit run,
      read up to the first non-digit after it. */
  lemma MoneyLine(line: string, i: nat, n: nat)
    requires Contains(line, MoneyKey)
    requires i + n <= |line| && n >= 1
    requires forall k | 0 <= k < i :: !IsDigit(line[k])
    requires forall k | i <= k < i + n :: IsDigit(line[k])
    requires i + n == |line| || !IsDigit(line[i + n])
    ensures AllDigits(line[i..i + n])
    ensures LineMoney(line) == Some(DecimalValue(line[i..i + n]))
  {
    assert forall k | 0 <= k < i :: !MatchesAt(Digits, line, k);
    LeftmostIs(Digits, line, 0, i);
    RunExactly(line, i, Digit, n);
    LineMoneyAt(line, i);
  }

  /** A line containing `money` whose first digit is at `i` adds the run
      starting there. */
  lemma LineMoneyAt(line: string, i: nat)
    requires Contains(line, MoneyKey) && Leftmost(Digits, line, 0) == Some(i)
    ensures AllDigits(line[i..i + Run(line, i, Digit)])
    ensures LineMoney(line) == Some(DecimalValue(line[i..i + Run(line, i, Digit)]))
  {
    RunShape(line, i, Digit);
    var run := line[i..i + Run(line, i, Digit)];
    forall k | 0 <= k < |run|
      ensures IsDigit(run[k])
    {
      assert run[k] == line[i + k];
    }
  }
}
