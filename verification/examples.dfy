/**
 * Concrete instances of the general laws, on the values the store's
 * behaviour is usually explained with.
 */
module Examples {
  import opened Wrappers
  import opened Text
  import opened Patterns
  import opened Ledger
  import opened Tracker
  import opened Runs
  import opened Currency
  import opened Enrichment
  import opened Records

  /** 150000 copper is fifteen gold, and 1234567 copper is 123g 45s 67c. */
  lemma SplitExamples()
    ensures SplitMoney(150000) == Coins(15, 0, 0)
    ensures SplitMoney(1234567) == Coins(123, 45, 67)
  {
  }

  /** Epic is rank 4; a quality name outside the table counts as Common. */
  lemma QualityExamples()
    ensures ItemQuality("Epic") == 4
    ensures ItemQuality("Artifact") == 1
  {
  }

  /** A failed download yields the placeholder for item 19019. */
  lemma PlaceholderExample(cache: Cache, remote: Fetch<Remote>)
    requires "19019" !in cache
    ensures Resolve(World(true, remote, Err, true), cache, "19019").item
         == ScrapedItem("19019", "Unknown Item (19019)", 1, "", "#")
  {
  }

  /** The header of an allow-listed character called Grace contains `race`
      without a race field, so the loop throws on it. */
  lemma GraceCrashes(allow: seq<string>, s: Session)
    requires Inv(allow, s) && "grace" in allow
    ensures Step(allow, s, Classify(HeaderLine(Spaces(HeaderIndent), "Grace"))).Crash?
  {
    var line := HeaderLine(Spaces(HeaderIndent), "Grace");
    HeaderNameOfHeaderLine(Spaces(HeaderIndent), "Grace");
    assert Lower("Grace") == "grace";
    assert ContainsAt("Grace", RaceKey, 1);
    HeaderCrash(allow, s, line);
  }

  /** A stored number reserves its spelling but not a zero-padded one. */
  lemma ReservedExample()
    ensures IsItemReserved(ReservedList([Num(6948)]), Str("6948"))
    ensures !IsItemReserved(ReservedList([Num(6948)]), Str("06948"))
  {
    assert DecimalString(6948) == "6948" by {
      assert DecimalString(6948) == DecimalString(694) + [DigitChar(8)];
      assert DecimalString(694) == DecimalString(69) + [DigitChar(4)];
      assert DecimalString(69) == DecimalString(6) + [DigitChar(9)];
    }
    assert AsString([Num(6948)][0]) == AsString(Str("6948"));
    ReservedBySpelling([Num(6948)], Str("6948"));
    ReservedBySpelling([Num(6948)], Str("06948"));
  }

  /** An indexed entry whose slot has single colons between its fields. */
  const SingleColonLine := "[6] = \"12345:0:0:0:0:0:0:0;3\""

  /** Inside the quotes the item body fails: after the id `12345` comes
      one colon, not eight. */
  lemma SingleColonBodyFails(line: string)
    requires line == SingleColonLine
    ensures ItemBodyAt(line, 7).None?
  {
    RunExactly(line, 7, Digit, 5);
    RunExactly(line, 12, Is(':'), 1);
    ItemBodyNeedsEightColons(line, 7, 5);
  }

  /** So the indexed pattern fails at the line's `[`. */
  lemma SingleColonEntryFails(line: string)
    requires line == SingleColonLine
    ensures IndexedItemAt(line, 0).None?
  {
    SingleColonShape(line);
    RunExactly(line, 1, Digit, 1);
    SingleColonBodyFails(line);
    IndexedItemWithoutBody(line, 0, 1);
  }

  /** Such a slot matches neither item pattern: the indexed one fails, and
      the bare one is not tried on a line holding `[`. */
  lemma SingleColonSlotCountsNothing()
    ensures LineItem(SingleColonLine) == None
  {
    var line := SingleColonLine;
    SingleColonEntryFails(line);
    SingleColonShape(line);
    FirstBracketOnly(line);
  }

  /** The line opens with `[6] = "`, and that `[` is its only one. */
  lemma SingleColonShape(line: string)
    requires line == SingleColonLine
    ensures |line| == 29 && line[0] == '[' && line[1] == '6' && line[2] == ']'
    ensures line[3] == ' ' && line[4] == '=' && line[5] == ' ' && line[6] == '"'
    ensures forall k | 0 < k < |line| :: line[k] != '['
  {
  }

  /** The dump's level line `        ["level"] = 60,` is read, not thrown on:
      it matches the level pattern and holds neither `race` nor `class`. */
  lemma LevelLineReads()
    ensures !FieldCrash(Spaces(8) + FieldText(LevelKey, "60", false))
  {
    var line := Spaces(8) + FieldText(LevelKey, "60", false);
    assert line[8..8 + |FieldText(LevelKey, "60", false)|] == FieldText(LevelKey, "60", false);
    LevelLineLetters(line);
    if Contains(line, RaceKey) {
      ContainsFirstChar(line, RaceKey);
    }
    if Contains(line, ClassKey) {
      ContainsFirstChar(line, ClassKey);
    }
    FieldLineNoCrash(line, 8, LevelKey, "60");
  }

  /** The level line holds neither an `r` nor a `c`. */
  lemma LevelLineLetters(line: string)
    requires line == Spaces(8) + FieldText(LevelKey, "60", false)
    ensures 'r' !in line && 'c' !in line
  {
    assert line == "        [\"level\"] = 60,";
  }
}
