/** The money display: an amount split into 万 (units of 10000) and 円. */
module Display {

  const ManUnit: int := 10000

  datatype MoneyParts = MoneyParts(man: int, yen: int)

  /** The 円 part as JavaScript's `amount % 10000` computes it: the
      remainder truncated toward zero, so it takes the sign of the amount. */
  function TruncatedRemainder(amount: int): (r: int)
    ensures -ManUnit < r < ManUnit
    ensures (amount - r) % ManUnit == 0
    ensures 0 <= amount ==> 0 <= r
    ensures amount < 0 ==> r <= 0
  {
    if 0 <= amount then amount % ManUnit else -((-amount) % ManUnit)
  }

  /** The 万 part is the amount divided by 10000 rounded down; the 円 part is
      the truncated remainder. For a non-negative amount this is the unique
      split with a 円 part below 10000. */
  function FormatMoney(amount: int): (r: MoneyParts)
    ensures 0 <= amount ==> 0 <= r.yen < ManUnit && r.man * ManUnit + r.yen == amount && 0 <= r.man
    ensures r.man * ManUnit <= amount < (r.man + 1) * ManUnit
  {
    MoneyParts(amount / ManUnit, TruncatedRemainder(amount))
  }

  /** No other split of a non-negative amount has a 円 part in [0, 10000). */
  lemma FormatMoneyUnique(amount: int, man: int, yen: int)
    requires 0 <= amount
    requires 0 <= yen < ManUnit && man * ManUnit + yen == amount
    ensures FormatMoney(amount) == MoneyParts(man, yen)
  {
    assert man == amount / ManUnit;
  }

  /** For a negative amount that is not a whole number of 万, the two parts
      do not add back up: both are negative and the 万 part is rounded down,
      so -1 shows as -1万-1円. */
  lemma FormatMoneyNegative(amount: int)
    requires amount < 0 && amount % ManUnit != 0
    ensures FormatMoney(amount).man * ManUnit + FormatMoney(amount).yen == amount - ManUnit
    ensures FormatMoney(-1) == MoneyParts(-1, -1)
  {
  }
}
