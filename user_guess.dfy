/**
 * The input side of the game in main.cpp: recognising a decimal token,
 * reading one through a token stream into an out-parameter, reading a
 * whole guess "row column number", and turning the user's 1-based
 * coordinates into the unsigned 0-based ones that SetCell receives.
 *
 * A line is given already split at whitespace: the string stream built
 * from it is a TokenStream over those tokens.
 */
module UserGuess {
  import opened SudokuEngine

  /** std::isdigit in the "C" locale: the ten decimal digits and nothing else. */
  predicate IsDigit(c: char): (digit: bool)
    ensures digit <==> c in "0123456789"
  {
    '0' <= c <= '9'
  }

  /**
   * std::find_if(s.begin(), s.end(), not-a-digit): the position of the
   * first character that is not a digit, or |s| when there is none.
   */
  function FindNonDigit(s: string): (k: nat)
    ensures k <= |s|
    ensures forall i :: 0 <= i < k ==> IsDigit(s[i])
    ensures k < |s| ==> !IsDigit(s[k])
  {
    if s == [] then 0
    else if !IsDigit(s[0]) then 0
    else 1 + FindNonDigit(s[1..])
  }

  /** StrIsNumber: not empty, and find_if finds no non-digit. */
  function StrIsNumber(s: string): (b: bool)
    ensures b <==> |s| > 0 && forall i :: 0 <= i < |s| ==> IsDigit(s[i])
  {
    |s| > 0 && FindNonDigit(s) == |s|
  }

  function DigitValue(c: char): (d: nat)
    requires IsDigit(c)
    ensures d < 10
  {
    c as int - '0' as int
  }

  function Pow10(e: nat): (p: nat)
    ensures p >= 1
  {
    if e == 0 then 1 else 10 * Pow10(e - 1)
  }

  /**
   * The value std::stoi gives an all-digit token, read left to right in
   * base 10: a token of e digits stays below 10^e.
   */
  function DecimalValue(s: string): (n: nat)
    requires forall i :: 0 <= i < |s| ==> IsDigit(s[i])
    ensures n < Pow10(|s|)
    decreases |s|
  {
    if s == [] then 0 else 10 * DecimalValue(s[..|s| - 1]) + DigitValue(s[|s| - 1])
  }

  /** The largest value std::stoi returns without throwing out_of_range (a 32-bit int). */
  const IntMax: nat := 0x7fff_ffff

  /** A token that std::stoi can convert: not a number at all, or a number that fits in int. */
  predicate FitsInInt(s: string)
  {
    StrIsNumber(s) ==> DecimalValue(s) <= IntMax
  }

  /** A number token of at most nine digits never makes std::stoi overflow. */
  lemma ShortTokensFit(s: string)
    requires |s| <= 9
    ensures FitsInInt(s)
  {
    if StrIsNumber(s) {
      PowMonotone(|s|, 9);
      assert Pow10(9) == 1_000_000_000;
    }
  }

  lemma {:induction false} PowMonotone(a: nat, b: nat)
    requires a <= b
    ensures Pow10(a) <= Pow10(b)
    decreases b
  {
    if a < b {
      PowMonotone(a, b - 1);
    }
  }

  // ------------------------------------------------------------------
  // Partner of DecimalValue: writing a number in decimal

  function DigitChar(d: nat): (c: char)
    requires d < 10
    ensures IsDigit(c) && DigitValue(c) == d
  {
    (d + '0' as int) as char
  }

  /** The decimal digits of n, without leading zeros (0 is written "0"). */
  function Decimal(n: nat): (s: string)
    decreases n
  {
    if n < 10 then [DigitChar(n)] else Decimal(n / 10) + [DigitChar(n % 10)]
  }

  /** Every number written in decimal is a token StrIsNumber accepts, and stoi reads back the same number. */
  lemma {:induction false} DecimalRoundTrip(n: nat)
    ensures StrIsNumber(Decimal(n))
    ensures DecimalValue(Decimal(n)) == n
    decreases n
  {
    if n >= 10 {
      DecimalRoundTrip(n / 10);
      var s := Decimal(n);
      var prefix := Decimal(n / 10);
      assert s[..|s| - 1] == prefix;
    }
  }

  /** Leading zeros do not change the value read. */
  lemma {:induction false} LeadingZero(s: string)
    requires forall i :: 0 <= i < |s| ==> IsDigit(s[i])
    ensures forall i :: 0 <= i < |"0" + s| ==> IsDigit(("0" + s)[i])
    ensures DecimalValue("0" + s) == DecimalValue(s)
    decreases |s|
  {
    if s != [] {
      var t := "0" + s;
      assert t[..|t| - 1] == "0" + s[..|s| - 1];
      LeadingZero(s[..|s| - 1]);
    }
  }

  // ------------------------------------------------------------------
  // The string stream of one input line

  /** The stream extraction `in >> tmp` over a line already split into tokens. */
  class TokenStream {
    var tokens: seq<string>
    var pos: nat

    ghost predicate Valid()
      reads this
    {
      pos <= |tokens|
    }

    /** The token the next extraction yields: "" once the line is used up. */
    function Peek(): (tok: string)
      reads this
      requires Valid()
      ensures pos < |tokens| ==> tok == tokens[pos]
      ensures pos == |tokens| ==> tok == ""
    {
      if pos < |tokens| then tokens[pos] else ""
    }

    /** std::stringstream ss(line): a stream positioned at the first token. */
    constructor (line: seq<string>)
      ensures Valid() && tokens == line && pos == 0
    {
      tokens := line;
      pos := 0;
    }

    /** `in >> tmp` into an empty string: the next token, or "" when there is none. */
    method Extract() returns (tok: string)
      requires Valid()
      modifies this`pos
      ensures Valid()
      ensures tok == old(Peek())
      ensures pos == if old(pos) < |tokens| then old(pos) + 1 else old(pos)
    {
      if pos < |tokens| {
        tok := tokens[pos];
        pos := pos + 1;
      } else {
        tok := "";
      }
    }
  }

  /**
   * ReadInt: extract one token; when it is a number, store its value in the
   * out-parameter and succeed, otherwise leave the out-parameter as it was
   * and fail. The token is consumed either way.
   */
  method ReadInt(input: TokenStream, value: nat) returns (ok: bool, value': nat)
    requires input.Valid() && FitsInInt(input.Peek())
    modifies input`pos
    ensures input.Valid()
    ensures ok <==> StrIsNumber(old(input.Peek()))
    ensures value' == if ok then DecimalValue(old(input.Peek())) else value
    ensures input.pos == if old(input.pos) < |input.tokens| then old(input.pos) + 1 else old(input.pos)
  {
    var tmp := input.Extract();
    if StrIsNumber(tmp) {
      value' := DecimalValue(tmp);
      ok := true;
      return;
    }
    value' := value;
    ok := false;
  }

  /** The i-th token of a line, "" past its end. */
  function TokenAt(line: seq<string>, i: nat): (tok: string)
    ensures i < |line| ==> tok == line[i]
    ensures i >= |line| ==> tok == ""
  {
    if i < |line| then line[i] else ""
  }

  /** The value a ReadInt of token tok leaves in an out-parameter that held v. */
  function ReadValue(tok: string, v: nat): (value: nat)
    requires FitsInInt(tok)
  {
    if StrIsNumber(tok) then DecimalValue(tok) else v
  }

  /**
   * GetUserGuess on one line: three ReadInt calls, all attempted whatever
   * the earlier ones returned; success only when all three succeed. An
   * out-parameter is updated by its own successful read even when the
   * guess as a whole fails.
   */
  method GetUserGuess(line: seq<string>, row: nat, col: nat, num: nat)
    returns (success: bool, row': nat, col': nat, num': nat)
    requires forall i :: 0 <= i < 3 ==> FitsInInt(TokenAt(line, i))
    ensures success <==> StrIsNumber(TokenAt(line, 0)) && StrIsNumber(TokenAt(line, 1)) && StrIsNumber(TokenAt(line, 2))
    ensures row' == ReadValue(TokenAt(line, 0), row)
    ensures col' == ReadValue(TokenAt(line, 1), col)
    ensures num' == ReadValue(TokenAt(line, 2), num)
  {
    var ss := new TokenStream(line);
    assert FitsInInt(TokenAt(line, 0));
    success := true;
    var ok: bool;
    ok, row' := ReadInt(ss, row);
    if !ok {
      success := false;
    }
    assert ss.pos == if 0 < |line| then 1 else 0;
    assert FitsInInt(TokenAt(line, 1));
    ok, col' := ReadInt(ss, col);
    if !ok {
      success := false;
    }
    assert ss.pos == if 1 < |line| then 2 else |line|;
    assert FitsInInt(TokenAt(line, 2));
    ok, num' := ReadInt(ss, num);
    if !ok {
      success := false;
    }
  }

  // ------------------------------------------------------------------
  // From the user's coordinates to SetCell's

  /** 2^64: size_t arithmetic wraps modulo this. */
  const SizeModulus: nat := 0x1_0000_0000_0000_0000

  /** `row - 1` on size_t: the 1-based coordinate becomes 0-based, and 0 wraps to the largest size_t. */
  function ToBoardIndex(user: nat): (index: nat)
    requires user < SizeModulus
    ensures index < SizeModulus
    ensures user > 0 ==> index == user - 1
    ensures user == 0 ==> index == SizeModulus - 1
  {
    (user + SizeModulus - 1) % SizeModulus
  }

  /**
   * What SetCell's validation makes of a guess: coordinates 1..10 and a
   * digit 0..9 pass; a coordinate of 0 wraps and is refused. A coordinate
   * of 10 passes validation but lies outside the grid.
   */
  lemma GuessValidation(row: nat, col: nat, num: nat)
    requires row <= IntMax && col <= IntMax
    ensures ValidateCellEntry(ToBoardIndex(row), ToBoardIndex(col), num) <==>
      1 <= row <= 10 && 1 <= col <= 10 && num <= 9
    ensures DefinedEntry(ToBoardIndex(row), ToBoardIndex(col), num) <==>
      !(1 <= row <= 10 && 1 <= col <= 10 && num <= 9 && (row == 10 || col == 10))
  {
  }
}
