/**
 * The split of the bank's copper total into gold, silver and copper that
 * `saveMoney` writes (src/stores/bankStore.js:271-273). One gold is 100
 * silver and one silver is 100 copper. The total is a sum of `parseInt`
 * digit runs and so never negative, which makes `Math.floor` and the
 * truncating `%` of JavaScript agree with Dafny's division and modulus.
 */
module Currency {

  const CopperPerSilver := 100
  const CopperPerGold := 10000

  /** The `{ gold, silver, copper }` document. */
  datatype Coins = Coins(gold: nat, silver: nat, copper: nat)

  /** The copper a purse is worth. */
  function ToCopper(c: Coins): nat {
    c.gold * CopperPerGold + c.silver * CopperPerSilver + c.copper
  }

  /** A purse where silver and copper are below one unit of the next coin. */
  predicate Reduced(c: Coins) {
    c.silver < 100 && c.copper < 100
  }

  /** `gold = floor(total / 10000)`, `silver = floor((total % 10000) / 100)`,
      `copper = total % 100`. */
  function SplitMoney(total: nat): (c: Coins)
    ensures ToCopper(c) == total
    ensures Reduced(c)
  {
    var gold := total / CopperPerGold;
    var rest := total % CopperPerGold;
    var silver := rest / CopperPerSilver;
    assert total == (gold * CopperPerSilver + silver) * CopperPerSilver + rest % CopperPerSilver;
    assert total % CopperPerSilver == rest % CopperPerSilver;
    Coins(gold, silver, total % CopperPerSilver)
  }

  /** There is exactly one reduced purse for a total: any reduced purse is
      the split of the copper it is worth. */
  lemma SplitUnique(c: Coins)
    requires Reduced(c)
    ensures SplitMoney(ToCopper(c)) == c
  {
    var t := ToCopper(c);
    var s := c.silver * CopperPerSilver + c.copper;
    QuotientOf(c.gold, s, CopperPerGold);
    QuotientOf(c.silver, c.copper, CopperPerSilver);
    QuotientOf(c.gold * CopperPerSilver + c.silver, c.copper, CopperPerSilver);
  }

  /** Division by one of the coin sizes recovers quotient and remainder. */
  lemma QuotientOf(q: nat, r: nat, k: nat)
    requires k == CopperPerSilver || k == CopperPerGold
    requires r < k
    ensures (q * k + r) / k == q && (q * k + r) % k == r
  {
    var t := q * k + r;
    var q', r' := t / k, t % k;
    assert t == q' * k + r' && r' < k;
    if k == CopperPerSilver {
      assert (q - q') * 100 == r' - r;
    } else {
      assert (q - q') * 10000 == r' - r;
    }
  }
}
