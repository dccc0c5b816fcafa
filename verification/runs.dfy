/**
 * Facts about the whole loop of `parseData` (src/stores/bankStore.js:62-136):
 * how runs compose, that counts only grow, which sections contribute
 * nothing, and which header lines throw.
 */
module Runs {
  import opened Wrappers
  import opened Text
  import opened Normaliser
  import opened Patterns
  import opened Ledger
  import opened Tracker

  /** A crash index moved past `k` earlier lines. */
  function Shift(k: nat, o: Outcome): (r: Outcome)
    ensures r.Finished? == o.Finished?
    ensures o.Crashed? ==> r.at == o.at + k && r.partial == o.partial
    ensures o.Finished? ==> r == o
  {
    match o
    case Finished(_) => o
    case Crashed(i, l) => Crashed(i + k, l)
  }

  /** A run whose first line does not throw is that line's step followed
      by the run of the rest, crash positions moved by one. */
  lemma RunFirst(allow: seq<string>, s: Session, fs: seq<Facts>)
    requires Inv(allow, s) && |fs| > 0 && Step(allow, s, fs[0]).Continue?
    ensures RunLines(allow, s, fs) == Shift(1, RunLines(allow, Step(allow, s, fs[0]).next, fs[1..]))
  {
  }

  /** A run that finishes got past its first line. */
  lemma RunFinishedFirst(allow: seq<string>, s: Session, fs: seq<Facts>)
    requires Inv(allow, s) && |fs| > 0 && RunLines(allow, s, fs).Finished?
    ensures Step(allow, s, fs[0]).Continue?
    ensures RunLines(allow, s, fs) == RunLines(allow, Step(allow, s, fs[0]).next, fs[1..])
  {
  }

  /** A run that throws on its first line throws there. */
  lemma RunFirstCrash(allow: seq<string>, s: Session, fs: seq<Facts>)
    requires Inv(allow, s) && |fs| > 0 && Step(allow, s, fs[0]).Crash?
    ensures RunLines(allow, s, fs) == Crashed(0, Step(allow, s, fs[0]).partial)
  {
  }

  /** The first line of a finished prefix `a` is also the first line of
      `a + b`: both runs continue from the same session after it. */
  lemma PrefixStep(allow: seq<string>, s: Session, a: seq<Facts>, b: seq<Facts>)
    requires Inv(allow, s) && |a| > 0 && RunLines(allow, s, a).Finished?
    ensures Step(allow, s, a[0]).Continue? && Inv(allow, Step(allow, s, a[0]).next)
    ensures var t := Step(allow, s, a[0]).next;
      && RunLines(allow, s, a) == RunLines(allow, t, a[1..])
      && RunLines(allow, s, a + b) == Shift(1, RunLines(allow, t, a[1..] + b))
  {
    var ab := a + b;
    assert ab[0] == a[0] && ab[1..] == a[1..] + b;
    RunFinishedFirst(allow, s, a);
    RunFirst(allow, s, ab);
  }

  /** Moving a crash index by `j` and then by `k` moves it by `j + k`. */
  lemma ShiftShift(j: nat, k: nat, o: Outcome)
    ensures Shift(k, Shift(j, o)) == Shift(j + k, o)
  {
  }

  /** Runs compose: after a prefix that does not throw, the rest runs from
      the session the prefix left, and a crash in the rest is reported at
      its position in the whole input. */
  lemma {:induction false} RunAppend(allow: seq<string>, s: Session, a: seq<Facts>, b: seq<Facts>)
    requires Inv(allow, s) && RunLines(allow, s, a).Finished?
    ensures RunLines(allow, s, a + b) == Shift(|a|, RunLines(allow, RunLines(allow, s, a).final, b))
    decreases |a|
  {
    if |a| == 0 {
      assert a + b == b;
    } else {
      PrefixStep(allow, s, a, b);
      var t := Step(allow, s, a[0]).next;
      RunAppend(allow, t, a[1..], b);
      ShiftShift(|a| - 1, 1, RunLines(allow, RunLines(allow, t, a[1..]).final, b));
    }
  }

  /** Counts never go down as more lines are read: the ledger after a
      prefix is extended by the ledger after the whole input. */
  lemma PrefixExtends(allow: seq<string>, s: Session, a: seq<Facts>, b: seq<Facts>)
    requires Inv(allow, s) && RunLines(allow, s, a).Finished? && RunLines(allow, s, a + b).Finished?
    ensures Extends(RunLines(allow, s, a).final.ledger, RunLines(allow, s, a + b).final.ledger)
  {
    RunAppend(allow, s, a, b);
  }

  /** A run that throws after a prefix that did not throw does so inside
      the rest, and the ledger it leaves extends the one after the prefix:
      what was counted before the failing line is still there. */
  lemma PrefixExtendsCrash(allow: seq<string>, s: Session, a: seq<Facts>, b: seq<Facts>)
    requires Inv(allow, s) && RunLines(allow, s, a).Finished? && RunLines(allow, s, a + b).Crashed?
    ensures |a| <= RunLines(allow, s, a + b).at
    ensures Extends(RunLines(allow, s, a).final.ledger, RunLines(allow, s, a + b).partial)
  {
    RunAppend(allow, s, a, b);
  }

  /** No line is a header. */
  predicate Headerless(fs: seq<Facts>) {
    forall k | 0 <= k < |fs| :: fs[k].header.None?
  }

  /** Lines outside an allow-listed section change neither the ledger nor
      the dispatched ids. */
  lemma {:induction false} SilentOutsideAllowed(allow: seq<string>, s: Session, fs: seq<Facts>)
    requires Inv(allow, s) && !s.allowed && Headerless(fs)
    ensures RunLines(allow, s, fs).Finished?
    ensures RunLines(allow, s, fs).final.ledger == s.ledger
    ensures RunLines(allow, s, fs).final.dispatched == s.dispatched
    ensures !RunLines(allow, s, fs).final.allowed
    decreases |fs|
  {
    if |fs| > 0 {
      var t := Track(allow, s, fs[0]);
      assert Step(allow, s, fs[0]) == Continue(t);
      assert forall k | 0 <= k < |fs| - 1 :: fs[1..][k] == fs[k + 1];
      SilentOutsideAllowed(allow, t, fs[1..]);
    }
  }

  /** A character that is not on the allow list contributes nothing: its
      header and every line up to the next header leave the ledger and the
      dispatched ids as they were. */
  lemma DisallowedSectionSilent(allow: seq<string>, s: Session, header: Facts, body: seq<Facts>)
    requires Inv(allow, s)
    requires header.header.Some? && !AllowListed(allow, header.header.value)
    requires Headerless(body)
    ensures RunLines(allow, s, [header] + body).Finished?
    ensures RunLines(allow, s, [header] + body).final.ledger == s.ledger
    ensures RunLines(allow, s, [header] + body).final.dispatched == s.dispatched
  {
    var fs := [header] + body;
    assert fs[0] == header && fs[1..] == body;
    var t := Track(allow, s, header);
    assert Step(allow, s, header) == Continue(t);
    SilentOutsideAllowed(allow, t, body);
  }

  /** No line holds `},`. */
  predicate Unclosed(fs: seq<Facts>) {
    forall k | 0 <= k < |fs| :: !fs[k].close
  }

  /** Inside an equip section nothing is extracted until a line holding
      `},` or a header ends it. */
  lemma {:induction false} SilentInEquip(allow: seq<string>, s: Session, fs: seq<Facts>)
    requires Inv(allow, s) && s.inEquip && Headerless(fs) && Unclosed(fs)
    ensures RunLines(allow, s, fs).Finished?
    ensures RunLines(allow, s, fs).final.ledger == s.ledger
    ensures RunLines(allow, s, fs).final.dispatched == s.dispatched
    ensures RunLines(allow, s, fs).final.inEquip
    decreases |fs|
  {
    if |fs| > 0 {
      TrackLedger(allow, s, fs[0]);
      var t := Track(allow, s, fs[0]);
      assert Step(allow, s, fs[0]) == Continue(t);
      assert forall k | 0 <= k < |fs| - 1 :: fs[1..][k] == fs[k + 1];
      SilentInEquip(allow, t, fs[1..]);
    }
  }

  /** The whole-line form of `HeaderMatchesNoField`, which rules out one
      position at a time: the leftmost-match search finds nothing, so the
      `match` the loop indexes into is `null`. */
  lemma HeaderNoFieldMatch(line: string, key: string, quoted: bool)
    requires HeaderName(line).Some?
    ensures NoMatch(if quoted then QuotedField(key) else NumberField(key), line)
  {
    var p := if quoted then QuotedField(key) else NumberField(key);
    var r := Leftmost(p, line, 0);
    if r.Some? {
      HeaderMatchesNoField(line, key, quoted, r.value);
    }
  }

  /** The header of an allow-listed character (other than "equip") whose
      name contains `race`, `class` or `level` throws: the substring test
      succeeds but the field pattern finds nothing on that line. */
  lemma HeaderCrash(allow: seq<string>, s: Session, line: string)
    requires Inv(allow, s)
    requires HeaderName(line).Some? && AllowListed(allow, HeaderName(line).value)
    requires HeaderName(line).value != "equip"
    requires || Contains(HeaderName(line).value, RaceKey)
             || Contains(HeaderName(line).value, ClassKey)
             || Contains(HeaderName(line).value, LevelKey)
    ensures Step(allow, s, Classify(line)).Crash?
  {
    var name := HeaderName(line).value;
    assert line[|line| - 1] == '{' by {
      assert line == line[..HeaderIndent] + HeaderOpen + name + HeaderClose;
    }
    assert Seen(line) == line;
    HeaderMarkers(line);
    if Contains(name, RaceKey) {
      HeaderContainsNamePart(line, RaceKey);
      HeaderNoFieldMatch(line, RaceKey, true);
    } else if Contains(name, ClassKey) {
      HeaderContainsNamePart(line, ClassKey);
      HeaderNoFieldMatch(line, ClassKey, true);
    } else {
      HeaderContainsNamePart(line, LevelKey);
      HeaderNoFieldMatch(line, LevelKey, false);
    }
    assert Classify(line).crash;
  }

  /** In normalised output a header can only sit at nesting depth two:
      eight spaces of indentation are exactly two levels of four. */
  lemma NormalisedHeaderDepth(lines: seq<string>, i: nat)
    requires i < |lines| && HeaderName(Normalise(lines)[i]).Some?
    ensures LineDepth(lines, i) == 2
  {
    var out := Normalise(lines)[i];
    var d := IndentSize * LineDepth(lines, i);
    var t := Trim(lines[i]);
    TrimShape(lines[i]);
    assert out == Spaces(d) + t;
    assert |t| > 0 ==> out[d] == t[0] && !IsSpace(out[d]);
    assert out[HeaderIndent] == '[';
    assert forall k | 0 <= k < d :: out[k] == ' ';
  }

  // ---------------------------------------------------------------------
  // Counts and money add up

  /** What one line, read by the tracked session `t`, adds to the count of
      `id` for `name`: its counted capture, when `t` is extracting. */
  function LineCountGain(t: Session, f: LineFacts, name: string, id: string): nat
    requires Extracting(t) ==> t.name.Some?
  {
    if Extracting(t) then ItemGain(t.name.value, Counted(f.item), name, id) else 0
  }

  /** What one line, read by the tracked session `t`, adds to the money of
      `name`: its money, when `t` is extracting. */
  function LineMoneyGain(t: Session, f: LineFacts, name: string): nat
    requires Extracting(t) ==> t.name.Some?
  {
    if Extracting(t) then MoneyGain(t.name.value, f.money.GetOr(0), name) else 0
  }

  /** The counted captures of `id` on the lines of `name` that the loop
      extracts, added up over the lines `fs` read from `s`. */
  function CountGain(allow: seq<string>, s: Session, fs: seq<Facts>, name: string, id: string): nat
    requires Inv(allow, s)
    decreases |fs|
  {
    if |fs| == 0 then 0
    else
      match Step(allow, s, fs[0])
      case Crash(_) => 0
      case Continue(u) => LineCountGain(Track(allow, s, fs[0]), fs[0], name, id) + CountGain(allow, u, fs[1..], name, id)
  }

  /** The money on the lines of `name` that the loop extracts, added up
      over the lines `fs` read from `s`. */
  function MoneyGainOf(allow: seq<string>, s: Session, fs: seq<Facts>, name: string): nat
    requires Inv(allow, s)
    decreases |fs|
  {
    if |fs| == 0 then 0
    else
      match Step(allow, s, fs[0])
      case Crash(_) => 0
      case Continue(u) => LineMoneyGain(Track(allow, s, fs[0]), fs[0], name) + MoneyGainOf(allow, u, fs[1..], name)
  }

  /** One line that does not throw adds its own gain to every count and to
      every character's money. */
  lemma StepGain(allow: seq<string>, s: Session, f: Facts)
    requires Inv(allow, s) && Step(allow, s, f).Continue?
    ensures var t := Track(allow, s, f); var u := Step(allow, s, f).next;
      && (forall n, k :: Count(u.ledger, n, k) == Count(s.ledger, n, k) + LineCountGain(t, f, n, k))
      && (forall n :: Money(u.ledger, n) == Money(s.ledger, n) + LineMoneyGain(t, f, n))
  {
    var t := Track(allow, s, f);
    TrackLedger(allow, s, f);
    if Extracting(t) {
      AbsorbCounts(allow, t, f);
      AbsorbMoney(allow, t, f);
    }
  }

  /** The counts add up: after a run that does not throw, each character's
      count of an id is its count before plus the counted captures of that
      id on the character's extracted lines, and its money is its money
      before plus the money on those lines. */
  lemma {:induction false} RunGain(allow: seq<string>, s: Session, fs: seq<Facts>, name: string, id: string)
    requires Inv(allow, s) && RunLines(allow, s, fs).Finished?
    ensures Count(RunLines(allow, s, fs).final.ledger, name, id) == Count(s.ledger, name, id) + CountGain(allow, s, fs, name, id)
    ensures Money(RunLines(allow, s, fs).final.ledger, name) == Money(s.ledger, name) + MoneyGainOf(allow, s, fs, name)
    decreases |fs|
  {
    if |fs| > 0 {
      RunFinishedFirst(allow, s, fs);
      var u := Step(allow, s, fs[0]).next;
      StepGain(allow, s, fs[0]);
      RunGain(allow, u, fs[1..], name, id);
    }
  }

  /** For a whole parse that does not throw, a character's count of an id
      is exactly the sum of the counted captures of that id on its
      extracted lines, and its money the sum of the money on them. */
  lemma ParsedGain(allow: seq<string>, lines: seq<string>, name: string, id: string)
    requires ParseLines(allow, lines).Parsed?
    ensures var l := ParseLines(allow, lines).inventories;
      && Count(l, name, id) == CountGain(allow, Start, ClassifyAll(lines), name, id)
      && Money(l, name) == MoneyGainOf(allow, Start, ClassifyAll(lines), name)
  {
    StartInv(allow);
    RunGain(allow, Start, ClassifyAll(lines), name, id);
  }
}
