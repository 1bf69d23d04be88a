/** `JavaPlayground.JavaRomans`: a second copy of the greedy encoder, with its
    own table (`values`) and the loop written with `forEach`. Its argument is a
    boxed `Integer`; a null one fails on unboxing, so the model takes an `int`. */
module PlaygroundRomans {
  import RomanNumerals

  /** `values`: the same thirteen entries as `RomanNumerals.Table`. */
  const Values: seq<RomanNumerals.Entry> := [
    RomanNumerals.Entry(1000, "M"), RomanNumerals.Entry(900, "CM"),
    RomanNumerals.Entry(500, "D"), RomanNumerals.Entry(400, "CD"),
    RomanNumerals.Entry(100, "C"), RomanNumerals.Entry(90, "XC"),
    RomanNumerals.Entry(50, "L"), RomanNumerals.Entry(40, "XL"),
    RomanNumerals.Entry(10, "X"), RomanNumerals.Entry(9, "IX"),
    RomanNumerals.Entry(5, "V"), RomanNumerals.Entry(4, "IV"),
    RomanNumerals.Entry(1, "I")
  ]

  /** The two tables agree entry by entry. */
  lemma SameTable()
    ensures Values == RomanNumerals.Table
  {
  }

  /** `toNumeral`: its output is that of `RomanNumerals.JavaRomans.toNumeral`
      for every argument, so all that is proved there (empty exactly for
      `number <= 0`, values adding up to `number`, table order, repeat limits,
      decoding back to `number`) holds of it too. */
  method ToNumeral(number: int) returns (s: string)
    ensures s == RomanNumerals.Numeral(number)
  {
    SameTable();
    var values := Values;
    RomanNumerals.TableShape();
    var sb := "";
    var remaining := number;
    for i := 0 to |values|
      invariant sb + RomanNumerals.Render(RomanNumerals.Greedy(remaining, i)) == RomanNumerals.Numeral(number)
      invariant number >= 0 ==> 0 <= remaining && (i > 0 ==> remaining < values[i - 1].value)
    {
      var entry := values[i];
      while remaining >= entry.value
        invariant sb + RomanNumerals.Render(RomanNumerals.Greedy(remaining, i)) == RomanNumerals.Numeral(number)
        invariant number >= 0 ==> 0 <= remaining && (i > 0 ==> remaining < values[i - 1].value)
        decreases remaining
      {
        assert sb + (entry.symbol + RomanNumerals.Render(RomanNumerals.Greedy(remaining - entry.value, i))) ==
               (sb + entry.symbol) + RomanNumerals.Render(RomanNumerals.Greedy(remaining - entry.value, i));
        remaining := remaining - entry.value;
        sb := sb + entry.symbol;
      }
    }
    // every entry down to I (value 1) is passed, so nothing remains
    assert number >= 0 ==> remaining == 0;
    s := sb;
  }
}
