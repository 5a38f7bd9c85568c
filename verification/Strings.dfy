/** Strings: decimal numbers as they are printed and read, and the spaces at its ends. */
module Strings {

  datatype Option<T> = None | Some(value: T)

  // ---------------------------------------------------------------- numbers

  function Digits(n: nat): string
  {
    if n < 10 then ['0' + n as char] else Digits(n / 10) + ['0' + (n % 10) as char]
  }

  function Decimal(n: int): string
  {
    if n < 0 then "-" + Digits(-n) else Digits(n)
  }

  function ParseDigits(s: string): (n: nat)
  {
    if s == "" then 0
    else
      var last := s[|s| - 1];
      10 * ParseDigits(s[..|s| - 1]) + if '0' <= last <= '9' then (last - '0') as nat else 0
  }

  function ParseDecimal(s: string): int
  {
    if s != "" && s[0] == '-' then -(ParseDigits(s[1..]) as int) else ParseDigits(s)
  }

  lemma {:induction false} DigitsRead(n: nat)
    ensures ParseDigits(Digits(n)) == n && '\0' !in Digits(n) && '-' !in Digits(n) && Digits(n) != ""
  {
    if n >= 10 {
      DigitsRead(n / 10);
      var s := Digits(n);
      assert s[..|s| - 1] == Digits(n / 10);
    }
  }

  lemma DecimalReads(n: int)
    ensures ParseDecimal(Decimal(n)) == n && '\0' !in Decimal(n)
  {
    if n < 0 {
      DigitsRead(-n);
      assert Decimal(n)[1..] == Digits(-n);
    } else {
      DigitsRead(n);
      assert Digits(n)[0] in Digits(n);
    }
  }

  // ---------------------------------------------------------------- spaces

  predicate IsSpace(c: char)
  {
    c == ' ' || c == '\t' || c == '\n' || c == '\r'
  }

  function TrimSpace(s: string): (r: string)
    ensures |r| <= |s|
    ensures r != "" ==> !IsSpace(r[0]) && !IsSpace(r[|r| - 1])
    decreases |s|
  {
    if s == "" then s
    else if IsSpace(s[0]) then TrimSpace(s[1..])
    else if IsSpace(s[|s| - 1]) then TrimSpace(s[..|s| - 1])
    else s
  }
}
