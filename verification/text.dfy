/**
 * The JavaScript string primitives the inventory pipeline relies on:
 * `trim`, the `\s` and `\d` regex classes, `includes`, `endsWith`,
 * `split('\n')` / `join('\n')`, `parseInt(_, 10)` on digit runs,
 * `String(n)` on non-negative integers, and `toLowerCase` / `\p{L}`
 * restricted to the Latin-1 range.
 */
module Text {

  /** The code points ECMAScript counts as WhiteSpace or LineTerminator:
      exactly what `String.prototype.trim` strips and what `\s` matches. */
  predicate IsSpace(c: char) {
    || c == '\t' || c == '\n' || c == '\U{000B}' || c == '\U{000C}' || c == '\r'
    || c == ' ' || c == '\U{00A0}' || c == '\U{1680}'
    || ('\U{2000}' <= c <= '\U{200A}')
    || c == '\U{2028}' || c == '\U{2029}' || c == '\U{202F}' || c == '\U{205F}'
    || c == '\U{3000}' || c == '\U{FEFF}'
  }

  /** The `\d` class: ASCII digits only, also under the `u` flag. */
  predicate IsDigit(c: char) {
    '0' <= c <= '9'
  }

  /** The `\p{L}` class on the Latin-1 range: ASCII letters, the three
      Latin-1 letter signs and the accented letters (not the sign of
      multiplication or division). */
  predicate IsLetter(c: char) {
    || ('A' <= c <= 'Z') || ('a' <= c <= 'z')
    || c == '\U{00AA}' || c == '\U{00B5}' || c == '\U{00BA}'
    || ('\U{00C0}' <= c <= '\U{00D6}')
    || ('\U{00D8}' <= c <= '\U{00F6}')
    || ('\U{00F8}' <= c <= '\U{00FF}')
  }

  predicate AllDigits(s: string) {
    forall k | 0 <= k < |s| :: IsDigit(s[k])
  }

  predicate AllLetters(s: string) {
    forall k | 0 <= k < |s| :: IsLetter(s[k])
  }

  /** `' '.repeat(n)` */
  function Spaces(n: nat): (r: string)
    ensures |r| == n
    ensures forall k | 0 <= k < n :: r[k] == ' '
  {
    seq(n, _ => ' ')
  }

  // ---------------------------------------------------------------------
  // Substrings

  /** `t` occurs in `s` starting at index `i`. */
  predicate ContainsAt(s: string, t: string, i: nat) {
    i + |t| <= |s| && s[i..i + |t|] == t
  }

  /** `s.includes(t)` */
  predicate Contains(s: string, t: string) {
    exists i: nat | i <= |s| :: ContainsAt(s, t, i)
  }

  /** `s.endsWith(t)` */
  predicate EndsWith(s: string, t: string) {
    |t| <= |s| && s[|s| - |t|..] == t
  }

  /** An occurrence of `t` in `s` puts the first character of `t` into `s`:
      a string without that character cannot contain `t`. */
  lemma ContainsFirstChar(s: string, t: string)
    requires |t| > 0 && Contains(s, t)
    ensures t[0] in s
  {
    var i: nat :| i <= |s| && ContainsAt(s, t, i);
    assert i < |s| && s[i..i + |t|][0] == s[i];
  }

  // ---------------------------------------------------------------------
  // Trimming

  /** `s.trimStart()` */
  function TrimStart(s: string): string
    decreases |s|
  {
    if |s| > 0 && IsSpace(s[0]) then TrimStart(s[1..]) else s
  }

  /** `s.trimEnd()` */
  function TrimEnd(s: string): string
    decreases |s|
  {
    if |s| > 0 && IsSpace(s[|s| - 1]) then TrimEnd(s[..|s| - 1]) else s
  }

  /** `s.trim()` */
  function Trim(s: string): string {
    TrimEnd(TrimStart(s))
  }

  /** `trimStart` leaves the suffix of `s` behind its leading white space:
      everything dropped is white space and what is left does not begin
      with white space. */
  lemma {:induction false} TrimStartShape(s: string)
    ensures var r := TrimStart(s);
            && |r| <= |s| && r == s[|s| - |r|..]
            && (forall k | 0 <= k < |s| - |r| :: IsSpace(s[k]))
            && (|r| > 0 ==> !IsSpace(r[0]))
    decreases |s|
  {
    if |s| > 0 && IsSpace(s[0]) {
      TrimStartShape(s[1..]);
    }
  }

  /** `trimEnd` leaves the prefix of `s` in front of its trailing white
      space: everything dropped is white space and what is left does not
      end with white space. */
  lemma {:induction false} TrimEndShape(s: string)
    ensures var r := TrimEnd(s);
            && |r| <= |s| && r == s[..|r|]
            && (forall k | |r| <= k < |s| :: IsSpace(s[k]))
            && (|r| > 0 ==> !IsSpace(r[|r| - 1]))
    decreases |s|
  {
    if |s| > 0 && IsSpace(s[|s| - 1]) {
      TrimEndShape(s[..|s| - 1]);
    }
  }

  /** Neither end of `s` is white space: `s` is its own trim. */
  predicate Trimmed(s: string) {
    |s| == 0 || (!IsSpace(s[0]) && !IsSpace(s[|s| - 1]))
  }

  /** Trimming leaves no white space at either end, keeps the characters
      in between, and strips only white space. */
  lemma TrimShape(s: string)
    ensures Trimmed(Trim(s))
    ensures exists i: nat :: ContainsAt(s, Trim(s), i)
  {
    var a := TrimStart(s);
    var r := TrimEnd(a);
    TrimStartShape(s);
    TrimEndShape(a);
    if |r| > 0 {
      assert r[0] == a[0];
    }
    var i: nat := |s| - |a|;
    assert s[i..i + |r|] == a[..|r|];
    assert ContainsAt(s, r, i);
  }

  /** Trimming introduces no character that was not in the line. */
  lemma TrimKeepsOut(s: string, c: char)
    requires c !in s
    ensures c !in Trim(s)
  {
    var a := TrimStart(s);
    TrimStartShape(s);
    TrimEndShape(a);
    assert a == s[|s| - |a|..];
  }

  lemma TrimStartOfTrimmed(s: string)
    requires |s| == 0 || !IsSpace(s[0])
    ensures TrimStart(s) == s
  {
  }

  lemma TrimEndOfTrimmed(s: string)
    requires |s| == 0 || !IsSpace(s[|s| - 1])
    ensures TrimEnd(s) == s
  {
  }

  /** Leading white space in front of a trimmed string is exactly what
      `trim` takes away again. */
  lemma {:induction false} TrimIndented(n: nat, t: string)
    requires Trimmed(t)
    ensures Trim(Spaces(n) + t) == t
    decreases n
  {
    if n == 0 {
      assert Spaces(0) + t == t;
      TrimStartOfTrimmed(t);
      TrimEndOfTrimmed(t);
    } else {
      var s := Spaces(n) + t;
      assert s[0] == ' ';
      assert s[1..] == Spaces(n - 1) + t;
      TrimIndented(n - 1, t);
    }
  }

  /** `trim` is idempotent. */
  lemma TrimIdempotent(s: string)
    ensures Trim(Trim(s)) == Trim(s)
  {
    TrimShape(s);
    TrimIndented(0, Trim(s));
    assert Spaces(0) + Trim(s) == Trim(s);
  }

  /** The number of leading space characters. */
  function LeadingSpaces(s: string): (n: nat)
    ensures n <= |s|
    ensures forall k | 0 <= k < n :: s[k] == ' '
    ensures n == |s| || s[n] != ' '
    decreases |s|
  {
    if |s| > 0 && s[0] == ' ' then 1 + LeadingSpaces(s[1..]) else 0
  }

  /** The indentation of `Spaces(n) + t` is `n` when `t` does not begin with a space. */
  lemma {:induction false} LeadingSpacesOfIndented(n: nat, t: string)
    requires |t| == 0 || t[0] != ' '
    ensures LeadingSpaces(Spaces(n) + t) == n
    decreases n
  {
    var s := Spaces(n) + t;
    if n == 0 {
      assert s == t;
    } else {
      assert s[0] == ' ';
      assert s[1..] == Spaces(n - 1) + t;
      LeadingSpacesOfIndented(n - 1, t);
    }
  }

  // ---------------------------------------------------------------------
  // Lines

  /** The index of the first occurrence of `c` in `s`. */
  function FirstIndex(s: string, c: char): (i: nat)
    requires c in s
    ensures i < |s| && s[i] == c && c !in s[..i]
    decreases |s|
  {
    if s[0] == c then 0 else 1 + FirstIndex(s[1..], c)
  }

  /** `lines.join('\n')` */
  function Join(lines: seq<string>): string
    decreases |lines|
  {
    if |lines| == 0 then ""
    else if |lines| == 1 then lines[0]
    else lines[0] + "\n" + Join(lines[1..])
  }

  /** `s.split('\n')`: at least one piece, no piece holds a line feed, and
      joining the pieces gives back `s`. */
  function Split(s: string): (r: seq<string>)
    ensures |r| >= 1
    ensures forall k | 0 <= k < |r| :: '\n' !in r[k]
    ensures Join(r) == s
    decreases |s|
  {
    if '\n' !in s then [s]
    else
      var i := FirstIndex(s, '\n');
      var rest := Split(s[i + 1..]);
      var r := [s[..i]] + rest;
      assert r[1..] == rest;
      assert s == s[..i] + "\n" + s[i + 1..];
      r
  }

  /** Splitting a line-feed-free line, a line feed and more text gives the
      line, then the split of the rest. */
  lemma SplitCons(head: string, rest: string)
    requires '\n' !in head
    ensures Split(head + "\n" + rest) == [head] + Split(rest)
  {
    var s := head + "\n" + rest;
    assert s[|head|] == '\n';
    var i := FirstIndex(s, '\n');
    assert s[..i] == head;
    assert s[i + 1..] == rest;
  }

  /** Splitting a join of line-feed-free lines gives back the lines. */
  lemma {:induction false} SplitJoin(lines: seq<string>)
    requires |lines| >= 1
    requires forall k | 0 <= k < |lines| :: '\n' !in lines[k]
    ensures Split(Join(lines)) == lines
    decreases |lines|
  {
    if |lines| > 1 {
      var head, tail := lines[0], lines[1..];
      assert Join(lines) == head + "\n" + Join(tail);
      SplitCons(head, Join(tail));
      assert forall k | 0 <= k < |tail| :: tail[k] == lines[k + 1];
      SplitJoin(tail);
      assert lines == [head] + tail;
    }
  }

  /** `line.replace(/\r$/, '')`: drops one carriage return at the very end. */
  function StripCarriageReturn(line: string): (r: string)
    ensures |line| > 0 && line[|line| - 1] == '\r' ==> line == r + "\r"
    ensures (|line| == 0 || line[|line| - 1] != '\r') ==> r == line
  {
    if |line| > 0 && line[|line| - 1] == '\r' then line[..|line| - 1] else line
  }

  // ---------------------------------------------------------------------
  // Decimal numbers

  function DigitValue(c: char): nat
    requires IsDigit(c)
  {
    c as nat - '0' as nat
  }

  function DigitChar(d: nat): (c: char)
    requires d < 10
    ensures IsDigit(c) && DigitValue(c) == d
  {
    ('0' as nat + d) as char
  }

  /** `parseInt(s, 10)` on a string of decimal digits (`Number(s)` agrees on
      such strings): the value of `s` read in base 10. */
  function DecimalValue(s: string): nat
    requires AllDigits(s)
    decreases |s|
  {
    if |s| == 0 then 0
    else 10 * DecimalValue(s[..|s| - 1]) + DigitValue(s[|s| - 1])
  }

  /** `String(n)` for a non-negative integer: its shortest decimal spelling. */
  function DecimalString(n: nat): (s: string)
    ensures |s| >= 1 && AllDigits(s)
    ensures |s| > 1 ==> s[0] != '0'
    decreases n
  {
    if n < 10 then [DigitChar(n)]
    else
      var p := DecimalString(n / 10);
      var s := p + [DigitChar(n % 10)];
      assert s[0] == p[0];
      s
  }

  /** A digit string without superfluous leading zeros. */
  predicate Canonical(s: string) {
    |s| >= 1 && AllDigits(s) && (|s| > 1 ==> s[0] != '0')
  }

  /** Reading back a spelled number gives the number. */
  lemma {:induction false} DecimalValueOfString(n: nat)
    ensures DecimalValue(DecimalString(n)) == n
    decreases n
  {
    if n >= 10 {
      var s := DecimalString(n);
      assert s[..|s| - 1] == DecimalString(n / 10);
      DecimalValueOfString(n / 10);
    }
  }

  /** A canonical digit string is the spelling of its value. */
  lemma {:induction false} DecimalStringOfValue(s: string)
    requires Canonical(s)
    ensures DecimalString(DecimalValue(s)) == s
    decreases |s|
  {
    if |s| == 1 {
      assert DecimalValue(s) == DigitValue(s[0]);
      assert [DigitChar(DigitValue(s[0]))] == s;
    } else {
      var p := s[..|s| - 1];
      assert p[0] == s[0];
      assert Canonical(p);
      DecimalStringOfValue(p);
      LeadingDigitPositive(p);
      var v := DecimalValue(s);
      assert v == 10 * DecimalValue(p) + DigitValue(s[|s| - 1]);
      assert v / 10 == DecimalValue(p) && v % 10 == DigitValue(s[|s| - 1]);
      assert DigitChar(DigitValue(s[|s| - 1])) == s[|s| - 1];
      assert s == p + [s[|s| - 1]];
    }
  }

  /** A canonical string of two or more digits has a value of at least 10. */
  lemma {:induction false} LeadingDigitPositive(s: string)
    requires Canonical(s)
    ensures DecimalValue(s) >= 1 || s == "0"
    decreases |s|
  {
    if |s| > 1 {
      var p := s[..|s| - 1];
      assert p[0] == s[0];
      LeadingDigitPositive(p);
    }
  }

  // ---------------------------------------------------------------------
  // Lower case

  /** `toLowerCase` on one Latin-1 character: the upper-case ASCII and
      accented letters move up by 0x20, everything else is unchanged. */
  function LowerChar(c: char): (r: char)
    ensures IsLetter(c) <==> IsLetter(r)
  {
    if ('A' <= c <= 'Z') || ('\U{00C0}' <= c <= '\U{00DE}' && c != '\U{00D7}')
    then (c as int + 0x20) as char
    else c
  }

  /** `s.toLowerCase()`, character by character. */
  function Lower(s: string): (r: string)
    ensures |r| == |s|
    ensures forall k | 0 <= k < |s| :: r[k] == LowerChar(s[k])
  {
    seq(|s|, k requires 0 <= k < |s| => LowerChar(s[k]))
  }

  /** Lower-casing twice is lower-casing once. */
  lemma LowerIdempotent(s: string)
    ensures Lower(Lower(s)) == Lower(s)
  {
  }
}
