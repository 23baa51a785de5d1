/** Text as the programs use it: decimal numerals, ASCII case mapping and the first colon of a string. */
module Text {

  function Digit(d: nat): char
    requires d < 10
  {
    "0123456789"[d]
  }

  function Decimal(n: nat): (s: string)
    ensures s != [] && ':' !in s
  {
    if n < 10 then [Digit(n)] else Decimal(n / 10) + [Digit(n % 10)]
  }

  lemma {:induction false} DecimalInjective(m: nat, n: nat)
    requires Decimal(m) == Decimal(n)
    ensures m == n
  {
    assert (m < 10 <==> |Decimal(m)| == 1) && (n < 10 <==> |Decimal(n)| == 1);
    if m >= 10 && n >= 10 {
      var a, b := Decimal(m / 10), Decimal(n / 10);
      assert (a + [Digit(m % 10)])[..|a|] == a && (b + [Digit(n % 10)])[..|b|] == b;
      assert (a + [Digit(m % 10)])[|a|] == Digit(m % 10) && (b + [Digit(n % 10)])[|b|] == Digit(n % 10);
      DecimalInjective(m / 10, n / 10);
    }
  }

  /** The number that a numeral denotes. */
  function Value(s: string): int {
    if s == "" then 0 else 10 * Value(s[..|s| - 1]) + (s[|s| - 1] as int - '0' as int)
  }

  lemma {:induction false} DecimalReadsBack(n: nat)
    ensures Value(Decimal(n)) == n
  {
    if n < 10 {
      assert Value([Digit(n)][..0]) == 0;
    } else {
      DecimalReadsBack(n / 10);
      assert (Decimal(n / 10) + [Digit(n % 10)])[..|Decimal(n / 10)|] == Decimal(n / 10);
    }
  }

  lemma NoColonLength(a: string, k: string, b: string, l: string)
    requires a + [':'] + k == b + [':'] + l && ':' !in b
    ensures |b| <= |a|
  {
    var s, t := a + [':'] + k, b + [':'] + l;
    assert s[|a|] == ':';
    assert forall i :: 0 <= i < |b| ==> t[i] == b[i];
  }

  function LowerChar(c: char): char {
    if 'A' <= c <= 'Z' then (c as int + 32) as char else c
  }

  function Lower(s: string): string {
    seq(|s|, i requires 0 <= i < |s| => LowerChar(s[i]))
  }

  function UpperChar(c: char): char {
    if 'a' <= c <= 'z' then (c as int - 32) as char else c
  }

  function Upper(s: string): string {
    seq(|s|, i requires 0 <= i < |s| => UpperChar(s[i]))
  }

  // ----- Words in any mixture of cases -----

  /** The letter is `small`, or its capital. */
  predicate SameLetter(c: char, small: char) {
    c == small || ('a' <= small <= 'z' && c as int + 32 == small as int)
  }

  /** The text is the word, which is written in small letters, in some mixture of cases. */
  predicate Spells(text: string, word: string) {
    |text| == |word| && forall i :: 0 <= i < |word| ==> SameLetter(text[i], word[i])
  }

  predicate NoCapitals(word: string) {
    forall i :: 0 <= i < |word| ==> !('A' <= word[i] <= 'Z')
  }

  lemma LowerSpells(text: string, word: string)
    requires NoCapitals(word)
    ensures Lower(text) == word <==> Spells(text, word)
  {
    if Lower(text) == word {
      forall i | 0 <= i < |word| ensures SameLetter(text[i], word[i]) {
        assert Lower(text)[i] == LowerChar(text[i]);
      }
    }
    if Spells(text, word) {
      forall i | 0 <= i < |word| ensures LowerChar(text[i]) == word[i] {
        assert SameLetter(text[i], word[i]);
      }
    }
  }

  /** `capitals` are the capitals of a word of small letters. */
  predicate Capitals(word: string, capitals: string) {
    |capitals| == |word|
    && forall i :: 0 <= i < |word| ==> 'a' <= word[i] <= 'z' && capitals[i] as int + 32 == word[i] as int
  }

  lemma UpperSpells(text: string, word: string, capitals: string)
    requires Capitals(word, capitals)
    ensures Upper(text) == capitals <==> Spells(text, word)
  {
    if Upper(text) == capitals {
      forall i | 0 <= i < |word| ensures SameLetter(text[i], word[i]) {
        assert Upper(text)[i] == UpperChar(text[i]);
      }
    }
    if Spells(text, word) {
      forall i | 0 <= i < |word| ensures UpperChar(text[i]) == capitals[i] {
        assert SameLetter(text[i], word[i]);
      }
    }
  }
}
