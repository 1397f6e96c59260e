/** Gift-card issuance: the code format and the stored card. */
module GiftCards {

  /** A document of the giftcards table. */
  datatype GiftCard = GiftCard(code: string, amount: int, used: bool)

  /** Smallest amount a card can be issued for. */
  const MinAmount: int := 1000

  /** The characters a code is drawn from: upper-case letters, then digits. */
  const Alphabet: string := "ABCDEFGHIJKLMNOPQRSTUVWXYZ0123456789"

  predicate IsCodeChar(c: char)
  {
    'A' <= c <= 'Z' || '0' <= c <= '9'
  }

  /** The alphabet is exactly the upper-case letters and the digits. */
  lemma AlphabetIsCodeChars(c: char)
    ensures c in Alphabet <==> IsCodeChar(c)
  {
    assert forall i :: 0 <= i < 26 ==> Alphabet[i] == ('A' as int + i) as char;
    assert forall i :: 26 <= i < 36 ==> Alphabet[i] == ('0' as int + i - 26) as char;
    if 'A' <= c <= 'Z' {
      assert Alphabet[c as int - 'A' as int] == c;
    } else if '0' <= c <= '9' {
      assert Alphabet[26 + (c as int - '0' as int)] == c;
    }
  }

  /** Twelve characters drawn from the alphabet, as the code generator draws them. */
  predicate DrawnChars(chars: string)
  {
    |chars| == 12 && forall i :: 0 <= i < 12 ==> IsCodeChar(chars[i])
  }

  /** A code as issued: three blocks of four code characters joined by hyphens. */
  predicate WellFormedCode(s: string)
  {
    |s| == 14 && s[4] == '-' && s[9] == '-' &&
    forall i :: 0 <= i < 14 && i != 4 && i != 9 ==> IsCodeChar(s[i])
  }

  /** The code built from twelve drawn characters: blocks of four joined by "-". */
  function GiftCode(chars: string): (code: string)
    requires DrawnChars(chars)
    ensures WellFormedCode(code)
  {
    chars[..4] + "-" + chars[4..8] + "-" + chars[8..]
  }

  /** The twelve code characters of a code, hyphens dropped. */
  function CodeChars(code: string): (chars: string)
    requires WellFormedCode(code)
    ensures DrawnChars(chars)
  {
    code[..4] + code[5..9] + code[10..]
  }

  /** Building a code and dropping its hyphens gives back the drawn characters. */
  lemma CodeCharsOfGiftCode(chars: string)
    requires DrawnChars(chars)
    ensures CodeChars(GiftCode(chars)) == chars
  {
    var code := GiftCode(chars);
    assert code[..4] == chars[..4];
    assert code[5..9] == chars[4..8];
    assert code[10..] == chars[8..];
    assert chars == chars[..4] + chars[4..8] + chars[8..];
  }

  /** Every well-formed code is the code of its own characters: the format has no other shape. */
  lemma GiftCodeOfCodeChars(code: string)
    requires WellFormedCode(code)
    ensures GiftCode(CodeChars(code)) == code
  {
    var chars := CodeChars(code);
    assert chars[..4] == code[..4];
    assert chars[4..8] == code[5..9];
    assert chars[8..] == code[10..];
    assert code == code[..4] + [code[4]] + code[5..9] + [code[9]] + code[10..];
  }

  /** A freshly issued card carries a well-formed code, is unused and is worth at least the minimum. */
  predicate IssuedCard(g: GiftCard)
  {
    WellFormedCode(g.code) && !g.used && g.amount >= MinAmount
  }

  /** The card stored for drawn characters `chars` and an amount of at least the minimum. */
  function Issue(chars: string, amount: int): (g: GiftCard)
    requires DrawnChars(chars)
    requires amount >= MinAmount
    ensures IssuedCard(g) && g.amount == amount
    ensures |g.code| == 14 && CodeChars(g.code) == chars
  {
    CodeCharsOfGiftCode(chars);
    GiftCard(GiftCode(chars), amount, false)
  }
}
