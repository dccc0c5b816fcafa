/**
 * `prettifyLua` (src/stores/bankStore.js:147-169): every line of the dump
 * is trimmed and re-indented by four spaces per level of brace nesting.
 * The depth drops, floored at zero, before a line that closes a table and
 * rises after a line that opens one.
 */
module Normaliser {
  import opened Text

  /** Spaces per nesting level (`indentSize`). */
  const IndentSize: nat := 4

  /** A trimmed line that closes a table: it ends with `},` or is `},` or `}`. */
  predicate Closes(t: string) {
    EndsWith(t, "},") || t == "}," || t == "}"
  }

  /** A trimmed line that opens a table: it ends with `{`. */
  predicate Opens(t: string) {
    EndsWith(t, "{")
  }

  /** The depth a trimmed line is emitted at, given the depth before it:
      `Math.max(0, depth - 1)` for a closing line. */
  function EmitDepth(before: nat, t: string): nat {
    if Closes(t) then (if before == 0 then 0 else before - 1) else before
  }

  /** The depth after a trimmed line has been emitted. */
  function NextDepth(before: nat, t: string): nat {
    EmitDepth(before, t) + (if Opens(t) then 1 else 0)
  }

  /** Reference definition of the nesting depth in force before line `i`,
      read off the lines in front of it. */
  function DepthBefore(lines: seq<string>, i: nat): nat
    requires i <= |lines|
    decreases i
  {
    if i == 0 then 0 else NextDepth(DepthBefore(lines, i - 1), Trim(lines[i - 1]))
  }

  /** The nesting depth line `i` is emitted at. */
  function LineDepth(lines: seq<string>, i: nat): nat
    requires i < |lines|
  {
    EmitDepth(DepthBefore(lines, i), Trim(lines[i]))
  }

  /** Normalised line `i`: the trimmed line behind four spaces per level. */
  function NormalLine(lines: seq<string>, i: nat): string
    requires i < |lines|
  {
    Spaces(IndentSize * LineDepth(lines, i)) + Trim(lines[i])
  }

  /** The normalised lines: `NormalLine` for every input line. */
  function Normalise(lines: seq<string>): (r: seq<string>)
    ensures |r| == |lines|
  {
    seq(|lines|, i requires 0 <= i < |lines| => NormalLine(lines, i))
  }

  /** What normalisation does to each line: the line count is kept, every
      output line trims back to the trimmed input line, and its
      indentation is exactly four spaces per level of nesting. */
  lemma NormaliseShape(lines: seq<string>)
    ensures |Normalise(lines)| == |lines|
    ensures forall i | 0 <= i < |lines| :: Trim(Normalise(lines)[i]) == Trim(lines[i])
    ensures forall i | 0 <= i < |lines| :: LeadingSpaces(Normalise(lines)[i]) == IndentSize * LineDepth(lines, i)
  {
    forall i | 0 <= i < |lines|
      ensures Trim(Normalise(lines)[i]) == Trim(lines[i])
      ensures LeadingSpaces(Normalise(lines)[i]) == IndentSize * LineDepth(lines, i)
    {
      NormalLineShape(lines, i);
    }
  }

  lemma NormalLineShape(lines: seq<string>, i: nat)
    requires i < |lines|
    ensures Trim(NormalLine(lines, i)) == Trim(lines[i])
    ensures LeadingSpaces(NormalLine(lines, i)) == IndentSize * LineDepth(lines, i)
  {
    TrimShape(lines[i]);
    TrimIndented(IndentSize * LineDepth(lines, i), Trim(lines[i]));
    LeadingSpacesOfIndented(IndentSize * LineDepth(lines, i), Trim(lines[i]));
  }

  /** The loop of `prettifyLua`: one pass over the lines carrying the
      current indentation level, as the source's `map` callback does. */
  method PrettifyLines(lines: seq<string>) returns (out: seq<string>)
    ensures out == Normalise(lines)
  {
    var indentLevel: nat := 0;
    out := [];
    var i := 0;
    while i < |lines|
      invariant 0 <= i <= |lines|
      invariant indentLevel == DepthBefore(lines, i)
      invariant out == Normalise(lines)[..i]
    {
      var line := Trim(lines[i]);
      if EndsWith(line, "},") || line == "}," || line == "}" {
        indentLevel := if indentLevel == 0 then 0 else indentLevel - 1;
      }
      assert indentLevel == LineDepth(lines, i);
      var indentedLine := Spaces(IndentSize * indentLevel) + line;
      assert indentedLine == NormalLine(lines, i);
      if EndsWith(line, "{") {
        indentLevel := indentLevel + 1;
      }
      assert indentLevel == DepthBefore(lines, i + 1);
      NormalisePrefix(lines, i);
      out := out + [indentedLine];
      i := i + 1;
    }
  }

  /** One more normalised line extends the normalised prefix. */
  lemma NormalisePrefix(lines: seq<string>, i: nat)
    requires i < |lines|
    ensures Normalise(lines)[..i + 1] == Normalise(lines)[..i] + [NormalLine(lines, i)]
  {
    assert Normalise(lines)[i] == NormalLine(lines, i);
  }

  /** `prettifyLua(lua)`: split at line feeds, normalise, join again.
      Splitting the result (as `parseData` does next) gives back exactly
      the normalised lines, so the line count of the dump is kept. */
  function PrettifyLua(lua: string): (r: string)
    ensures Split(r) == Normalise(Split(lua))
    ensures |Split(r)| == |Split(lua)|
  {
    var lines := Split(lua);
    var out := Normalise(lines);
    forall k | 0 <= k < |out|
      ensures '\n' !in out[k]
    {
      TrimKeepsOut(lines[k], '\n');
    }
    SplitJoin(out);
    Join(out)
  }

  /** Lines that trim alike have the same depths. */
  lemma {:induction false} DepthBeforeOfTrimmedAlike(a: seq<string>, b: seq<string>, i: nat)
    requires |a| == |b| && i <= |a|
    requires forall k | 0 <= k < |a| :: Trim(a[k]) == Trim(b[k])
    ensures DepthBefore(a, i) == DepthBefore(b, i)
    decreases i
  {
    if i > 0 {
      DepthBeforeOfTrimmedAlike(a, b, i - 1);
      var t := Trim(a[i - 1]);
      assert t == Trim(b[i - 1]);
      assert DepthBefore(a, i) == NextDepth(DepthBefore(a, i - 1), t);
    }
  }

  /** Normalising is idempotent: an already normalised dump is left as it is. */
  lemma NormaliseIdempotent(lines: seq<string>)
    ensures Normalise(Normalise(lines)) == Normalise(lines)
  {
    var out := Normalise(lines);
    NormaliseShape(lines);
    forall i | 0 <= i < |lines|
      ensures Normalise(out)[i] == out[i]
    {
      DepthBeforeOfTrimmedAlike(out, lines, i);
      assert NormalLine(out, i) == NormalLine(lines, i);
    }
  }

  /** The indentation of consecutive output lines: after line `i` the level
      rises by one when that line opens a table, and line `i + 1` is then
      pulled back one level (not below zero) when it closes one. */
  lemma IndentationStep(lines: seq<string>, i: nat)
    requires i + 1 < |lines|
    ensures var out := Normalise(lines);
            var level := LeadingSpaces(out[i]) / IndentSize + (if Opens(Trim(lines[i])) then 1 else 0);
            LeadingSpaces(out[i + 1]) == IndentSize * (if Closes(Trim(lines[i + 1])) && level > 0 then level - 1 else level)
  {
    var out := Normalise(lines);
    NormalLineShape(lines, i);
    NormalLineShape(lines, i + 1);
    var d := LineDepth(lines, i);
    assert out[i] == NormalLine(lines, i) && out[i + 1] == NormalLine(lines, i + 1);
    assert LeadingSpaces(out[i]) == IndentSize * d;
    assert LeadingSpaces(out[i]) / IndentSize == d;
    var level := d + (if Opens(Trim(lines[i])) then 1 else 0);
    assert level == DepthBefore(lines, i + 1);
    assert LineDepth(lines, i + 1) == EmitDepth(level, Trim(lines[i + 1]));
  }

  /** A normalised line never ends in a carriage return, so the `\r$`
      replacement `parseData` applies to each line changes nothing. */
  lemma NormalisedHasNoCarriageReturn(lines: seq<string>, i: nat)
    requires i < |lines|
    ensures StripCarriageReturn(Normalise(lines)[i]) == Normalise(lines)[i]
  {
    var t := Trim(lines[i]);
    TrimShape(lines[i]);
    var s := NormalLine(lines, i);
    assert Normalise(lines)[i] == s;
    if |t| > 0 {
      assert s[|s| - 1] == t[|t| - 1];
    }
  }
}
