/** The amount reader on the spellings the statements use: a thousands dot, a
    decimal comma, a minus sign with or without a space after it, and a token that
    does not read. */
module MoneyExamples {
  import opened Basics
  import opened Text
  import opened Numerals
  import opened Money

  /** The two digit runs of the examples. */
  lemma Reads1234()
    ensures ValueOf("1234") == 1234 && ValueOf("56") == 56
  {
    assert "56"[..1] == "5" && "5"[..0] == "";
    assert "1234"[..3] == "123" && "123"[..2] == "12" && "12"[..1] == "1" && "1"[..0] == "";
  }

  lemma Unsigned123456()
    ensures UnsignedCents("1234.56") == Some(123456)
  {
    assert "1234" + "." + "56" == "1234.56";
    UnsignedCentsOfParts("1234", "56");
    Reads1234();
  }

  /** The thousands dot vanishes and the comma becomes the decimal point. */
  lemma GroupedExample()
    ensures ParseBrlAmount("1.234,56") == 123456
  {
    assert Clean("1.234,56") == "1234.56";
    Unsigned123456();
  }

  /** A leading minus makes the amount negative. */
  lemma MinusExample()
    ensures ParseBrlAmount("-1.234,56") == -123456
  {
    assert Clean("-1.234,56") == "-1234.56";
    assert "-1234.56"[1..] == "1234.56";
    Unsigned123456();
  }

  /** The space between the minus and the digits is dropped before reading. */
  lemma SpacedMinusExample()
    ensures ParseBrlAmount("- 1.234,56") == -123456
  {
    assert Clean("- 1.234,56") == "-1234.56";
    assert "-1234.56"[1..] == "1234.56";
    Unsigned123456();
  }

  /** A token with two decimal commas cleans to `1.2.3`, which `Decimal` rejects, so it
      gives 0 instead of failing. */
  lemma UnreadableExample()
    ensures ParseBrlAmount("1,2,3") == 0
  {
    assert Clean("1,2,3") == "1.2.3";
    assert "1.2.3"[..2][1] == '.';
    assert UnsignedCents("1.2.3").None?;
  }
}
