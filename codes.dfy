/** The character set short codes are drawn from and the random code
    generator. Python builds the alphabet as `string.ascii_letters +
    string.digits` (lower-case letters, then upper-case letters, then
    digits). The random choices of `secrets.choice(ALPHABET)` are injected
    as a stream of positions in the alphabet. */
module Codes {
  import opened Text

  /** The `n` consecutive ASCII characters starting at `first`. */
  function Span(first: char, n: nat): (s: string)
    requires first as int + n <= 128
    ensures |s| == n
    ensures forall i :: 0 <= i < n ==> s[i] as int == first as int + i
  {
    if n == 0 then [] else Span(first, n - 1) + [(first as int + n - 1) as char]
  }

  const ASCII_LOWERCASE: string := Span('a', 26)
  const ASCII_UPPERCASE: string := Span('A', 26)
  const DIGITS: string := Span('0', 10)
  const ASCII_LETTERS: string := ASCII_LOWERCASE + ASCII_UPPERCASE
  const ALPHABET: string := ASCII_LETTERS + DIGITS

  /** One outcome of `secrets.choice(ALPHABET)`: a position in the alphabet. */
  type Index = i: int | 0 <= i < 62

  /** The character code at each position of the alphabet. */
  lemma AlphabetAt(i: Index)
    ensures |ALPHABET| == 62
    ensures ALPHABET[i] as int == if i < 26 then 'a' as int + i
                                 else if i < 52 then 'A' as int + (i - 26)
                                 else '0' as int + (i - 52)
  {
    if i < 26 {
      assert ALPHABET[i] == ASCII_LOWERCASE[i];
    } else if i < 52 {
      assert ALPHABET[i] == ASCII_UPPERCASE[i - 26];
    } else {
      assert ALPHABET[i] == DIGITS[i - 52];
    }
  }

  /** The position of an ASCII letter or digit in the alphabet. */
  function AlphabetIndex(c: char): (i: Index)
    requires IsAsciiAlnum(c)
    ensures ALPHABET[i] == c
  {
    var i: Index :=
      if IsAsciiLower(c) then c as int - 'a' as int
      else if IsAsciiUpper(c) then 26 + (c as int - 'A' as int)
      else 52 + (c as int - '0' as int);
    AlphabetAt(i);
    i
  }

  /** The alphabet has 62 distinct characters, and they are exactly the ASCII
      letters and digits. */
  lemma AlphabetShape()
    ensures |ALPHABET| == 62
    ensures forall i :: 0 <= i < |ALPHABET| ==> IsAsciiAlnum(ALPHABET[i])
    ensures forall i :: 0 <= i < |ALPHABET| ==> AlphabetIndex(ALPHABET[i]) == i
    ensures forall i, j :: 0 <= i < j < |ALPHABET| ==> ALPHABET[i] != ALPHABET[j]
    ensures forall c :: IsAsciiAlnum(c) <==> c in ALPHABET
  {
    AlphabetAt(0);
    forall i | 0 <= i < |ALPHABET|
      ensures IsAsciiAlnum(ALPHABET[i]) && AlphabetIndex(ALPHABET[i]) == i
    {
      AlphabetAt(i);
    }
    forall c | IsAsciiAlnum(c) ensures c in ALPHABET {
      assert ALPHABET[AlphabetIndex(c)] == c;
    }
  }

  /** `generate_code(length)`: `length` characters, the i-th being the
      alphabet character at the i-th injected position (a negative length
      gives the empty code, as `range` does). */
  function Generate(length: int, draws: seq<Index>): (code: string)
    requires |draws| >= length
    ensures |code| == if length < 0 then 0 else length
    ensures forall i :: 0 <= i < |code| ==> code[i] == ALPHABET[draws[i]]
  {
    seq(if length < 0 then 0 else length, i requires 0 <= i < length => ALPHABET[draws[i]])
  }

  /** Every generated code is made of ASCII letters and digits only. */
  lemma GenerateAlnum(length: int, draws: seq<Index>)
    requires |draws| >= length
    ensures AllAlnum(Generate(length, draws))
  {
    AlphabetShape();
  }

  /** The positions that make `Generate` produce a given code. */
  function DrawsFor(code: string): (draws: seq<Index>)
    requires AllAlnum(code)
    ensures |draws| == |code|
  {
    seq(|code|, i requires 0 <= i < |code| => AlphabetIndex(code[i]))
  }

  /** Every string of ASCII letters and digits can be generated, and the
      positions that generate it are unique: `Generate` is a bijection
      between position sequences and alphanumeric codes of the same length. */
  lemma GenerateBijective(code: string, draws: seq<Index>)
    requires AllAlnum(code)
    ensures Generate(|code|, DrawsFor(code)) == code
    ensures |draws| == |code| && Generate(|code|, draws) == code ==> draws == DrawsFor(code)
  {
    AlphabetShape();
    if |draws| == |code| && Generate(|code|, draws) == code {
      forall i | 0 <= i < |code| ensures draws[i] == DrawsFor(code)[i] {
        assert ALPHABET[draws[i]] == code[i];
      }
    }
  }

  /** The code drawn by attempt `j` (counting from 0) of a loop in which every
      attempt generates a `length`-character code from the same stream. */
  function NthCode(length: nat, draws: seq<Index>, j: nat): (code: string)
    requires length * (j + 1) <= |draws|
    ensures |code| == length && AllAlnum(code)
  {
    GenerateAlnum(length, draws[length * j..length * (j + 1)]);
    Generate(length, draws[length * j..length * (j + 1)])
  }
}
