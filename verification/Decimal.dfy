/** strconv.Itoa and strconv.Atoi, for numbers of 64 bits. */
module Decimal {
  import opened Options

  const MAIOR := 0x7FFF_FFFF_FFFF_FFFF
  const MENOR := -0x8000_0000_0000_0000

  function Digito(d: nat): char
    requires d < 10
  {
    ('0' as int + d) as char
  }

  function ItoaNat(n: nat): string {
    if n < 10 then [Digito(n)] else ItoaNat(n / 10) + [Digito(n % 10)]
  }

  function Itoa(n: int): string {
    if n < 0 then "-" + ItoaNat(-n) else ItoaNat(n)
  }

  function AtoiNat(s: string): Option<nat> {
    if s == "" || !('0' <= s[|s| - 1] <= '9') then None
    else
      var d := s[|s| - 1] as int - '0' as int;
      if |s| == 1 then Some(d)
      else match AtoiNat(s[..|s| - 1])
           case None => None
           case Some(n) => Some(n * 10 + d)
  }

  function NoAlcance(n: int): Option<int> {
    if MENOR <= n <= MAIOR then Some(n) else None
  }

  function Atoi(s: string): Option<int> {
    if s != "" && (s[0] == '-' || s[0] == '+') then
      match AtoiNat(s[1..])
      case None => None
      case Some(n) => NoAlcance(if s[0] == '-' then 0 - n else n)
    else
      match AtoiNat(s)
      case None => None
      case Some(n) => NoAlcance(n)
  }

  /** What Atoi reads: one sign or none, then digits only and at least one, each worth ten
      times what follows it, and the number is one of 64 bits. */
  lemma AtoiReads(s: string, d: char)
    ensures Atoi("").None? && Atoi("-").None? && Atoi("+").None?
    ensures AtoiNat(s + [d]).Some? <==> (s == "" || AtoiNat(s).Some?) && '0' <= d <= '9'
    ensures AtoiNat(s + [d]).Some? ==>
              AtoiNat(s + [d]).value == 10 * (if s == "" then 0 else AtoiNat(s).value) + (d as int - '0' as int)
    ensures AtoiNat(s).Some? ==> Atoi(s) == Atoi("+" + s)
    ensures AtoiNat(s).Some? ==> Atoi(s) == if AtoiNat(s).value <= 9223372036854775807 then Some(AtoiNat(s).value) else None
    ensures AtoiNat(s).Some? ==> Atoi("-" + s) == if AtoiNat(s).value <= 9223372036854775808 then Some(0 - AtoiNat(s).value) else None
    ensures AtoiNat(s).None? ==> Atoi("+" + s).None? && Atoi("-" + s).None?
  {
    assert (s + [d])[..|s|] == s;
    assert ("-" + s)[1..] == s && ("+" + s)[1..] == s;
    FirstIsDigit(s);
  }

  lemma {:induction false} FirstIsDigit(s: string)
    ensures AtoiNat(s).Some? ==> s != "" && '0' <= s[0] <= '9'
  {
    if |s| > 1 { FirstIsDigit(s[..|s| - 1]); }
  }

  lemma {:induction false} ItoaNatRoundTrip(n: nat)
    ensures ItoaNat(n) != "" && '0' <= ItoaNat(n)[0] <= '9'
    ensures AtoiNat(ItoaNat(n)) == Some(n)
  {
    if n >= 10 {
      ItoaNatRoundTrip(n / 10);
      var s := ItoaNat(n);
      assert s[..|s| - 1] == ItoaNat(n / 10);
    }
  }

  /** A number printed and read again is the same number. */
  lemma ItoaRoundTrip(n: int)
    requires MENOR <= n <= MAIOR
    ensures Atoi(Itoa(n)) == Some(n)
  {
    ItoaNatRoundTrip(if n < 0 then -n else n);
    if n < 0 { assert Itoa(n)[1..] == ItoaNat(-n); }
  }
}
