/** The standalone receipt page's order number (script.js). */
module OrderNumber {
  import Text
  import Storage

  /**
   * `generateRandomOrderNumber()`: draw 100000 + ⌊random · 900000⌋, print it and
   * left-pad it with '0' to six characters.
   */
  function GenerateRandomOrderNumber(draw: Storage.Draw): (s: string)
  {
    Text.PadStart(Text.DecimalString(100000 + draw), 6, '0')
  }

  /**
   * The number is six decimal digits, the first non-zero, so the padding never
   * adds a '0'; parsing it gives back 100000 plus the draw; and it is the same
   * string the order-id generator produces for that draw.
   */
  lemma {:induction false} RandomOrderNumberShape(draw: Storage.Draw)
    ensures var s := GenerateRandomOrderNumber(draw);
      && |s| == 6
      && s[0] != '0'
      && (forall i :: 0 <= i < 6 ==> Text.IsDigit(s[i]))
      && Text.ParseDecimal(s) == 100000 + draw
      && s == Text.DecimalString(100000 + draw)
      && s == Storage.GenerateOrderId(draw)
  {
    Storage.SixDigits(100000 + draw);
    Text.PadStartShape(Text.DecimalString(100000 + draw), 6, '0');
    var id := Storage.GenerateOrderId(draw);
  }
}
