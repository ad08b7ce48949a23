/** sdk/internal/jsontext: a Go string (bytes, here characters below 256) as a JSON
    string, and a reader for the escapes of section 7 of RFC 8259. */
module JsonText {

  import opened Options

  // ---- UTF-8 -------------------------------------------------------------

  predicate Entre(c: char, lo: int, hi: int) {
    lo <= c as int <= hi
  }

  /** The length of the UTF-8 sequence a text begins with; 0 for an invalid first byte. */
  function RuneLen(s: string): (n: nat)
    requires s != ""
    ensures n <= |s| && n <= 4
    ensures n == 1 <==> Entre(s[0], 0, 0x7F)
  {
    var b := s[0];
    if Entre(b, 0, 0x7F) then 1
    else if Entre(b, 0xC2, 0xDF) && |s| >= 2 && Entre(s[1], 0x80, 0xBF) then 2
    else if Entre(b, 0xE0, 0xEF) && |s| >= 3 && Entre(s[2], 0x80, 0xBF) &&
            Entre(s[1], if b as int == 0xE0 then 0xA0 else 0x80, if b as int == 0xED then 0x9F else 0xBF) then 3
    else if Entre(b, 0xF0, 0xF4) && |s| >= 4 && Entre(s[2], 0x80, 0xBF) && Entre(s[3], 0x80, 0xBF) &&
            Entre(s[1], if b as int == 0xF0 then 0x90 else 0x80, if b as int == 0xF4 then 0x8F else 0xBF) then 4
    else 0
  }

  predicate Utf8(s: string) {
    s == "" || (RuneLen(s) > 0 && Utf8(s[RuneLen(s)..]))
  }

  /** U+FFFD in UTF-8. */
  const TROCA: string := [0xEF as char, 0xBF as char, 0xBD as char]

  /** How many bytes one turn takes: a whole sequence, or one invalid byte. */
  function Toma(s: string): (n: nat)
    requires s != ""
    ensures 1 <= n <= |s|
  {
    if RuneLen(s) == 0 then 1 else RuneLen(s)
  }

  function Runa(s: string): string
    requires s != ""
  {
    if RuneLen(s) == 0 then TROCA else s[..RuneLen(s)]
  }

  /** The text with each invalid byte replaced. */
  function Limpa(s: string): string {
    if s == "" then "" else Runa(s) + Limpa(s[Toma(s)..])
  }

  /** A sequence is recognised by its own bytes, whatever follows them. */
  lemma RuneLenLocal(a: string, x: string)
    requires a != "" && RuneLen(a) > 0
    ensures RuneLen(a + x) == RuneLen(a)
  {
  }

  lemma RuneLenOfHead(s: string)
    requires s != "" && RuneLen(s) > 0
    ensures RuneLen(s[..RuneLen(s)]) == RuneLen(s)
  {
  }

  lemma Utf8Cons(a: string, x: string)
    requires a != "" && RuneLen(a) == |a|
    ensures Utf8(a + x) == Utf8(x)
  {
    RuneLenLocal(a, x);
    assert (a + x)[|a|..] == x;
  }

  /** Replacing makes every text valid, and changes exactly the invalid ones. */
  lemma RunaIsWhole(s: string)
    requires s != ""
    ensures Runa(s) != "" && RuneLen(Runa(s)) == |Runa(s)|
    ensures s == s[..Toma(s)] + s[Toma(s)..]
    ensures RuneLen(s) > 0 ==> Runa(s) == s[..Toma(s)]
  {
    if RuneLen(s) > 0 { RuneLenOfHead(s); }
  }

  lemma {:induction false} LimpaIsUtf8(s: string)
    ensures Utf8(Limpa(s))
  {
    if s != "" {
      LimpaIsUtf8(s[Toma(s)..]);
      RunaIsWhole(s);
      Utf8Cons(Runa(s), Limpa(s[Toma(s)..]));
    }
  }

  lemma {:induction false} LimpaKeepsUtf8(s: string)
    requires Utf8(s)
    ensures Limpa(s) == s
  {
    if s != "" {
      LimpaKeepsUtf8(s[Toma(s)..]);
      RunaIsWhole(s);
    }
  }

  /** Replacing makes every text valid, and changes exactly the invalid ones. */
  lemma LimpaChangesOnlyInvalid(s: string)
    ensures Utf8(Limpa(s))
    ensures Limpa(s) == s <==> Utf8(s)
  {
    LimpaIsUtf8(s);
    if Utf8(s) { LimpaKeepsUtf8(s); }
  }

  // ---- the writer --------------------------------------------------------

  function HexDigit(d: nat): char
    requires d < 16
  {
    if d < 10 then ('0' as int + d) as char else ('a' as int + d - 10) as char
  }

  function Escape(b: char): string {
    if b == '"' then "\\\"" else if b == '\\' then "\\\\"
    else if b == '\n' then "\\n" else if b == '\r' then "\\r" else if b == '\t' then "\\t"
    else if (b as int) < 0x20 then "\\u00" + [HexDigit(b as int / 16), HexDigit(b as int % 16)]
    else [b]
  }

  /** What one turn writes. */
  function Trecho(s: string): string
    requires s != ""
  {
    if s[0] as int < 0x80 then Escape(s[0]) else Runa(s)
  }

  function Escapada(s: string): string {
    if s == "" then "" else Trecho(s) + Escapada(s[Toma(s)..])
  }

  predicate Simples(b: char) {
    0x20 <= b as int < 0x80 && b != '"' && b != '\\'
  }

  lemma {:induction false} SimpleIsUnchanged(s: string)
    requires forall i :: 0 <= i < |s| ==> Simples(s[i])
    ensures Escapada(s) == s
  {
    if s != "" { SimpleIsUnchanged(s[1..]); }
  }

  method JsonSimples(s: string) returns (ok: bool)
    ensures ok <==> forall i :: 0 <= i < |s| ==> Simples(s[i])
  {
    for i := 0 to |s|
      invariant forall j :: 0 <= j < i ==> Simples(s[j])
    {
      var b := s[i];
      if b as int < 0x20 || b == '"' || b == '\\' || b as int >= 0x80 { return false; }
    }
    return true;
  }

  /** One more turn from position `i`, in the terms of the whole text. */
  lemma Turno(s: string, i: nat)
    requires i < |s|
    ensures Escapada(s[i..]) == Trecho(s[i..]) + Escapada(s[i + Toma(s[i..])..])
  {
    assert s[i..][Toma(s[i..])..] == s[i + Toma(s[i..])..];
  }

  lemma Copiado(s: string, i: nat)
    requires i < |s| && (Simples(s[i]) || (s[i] as int >= 0x80 && RuneLen(s[i..]) > 0))
    ensures Trecho(s[i..]) == s[i..i + Toma(s[i..])]
  {
    assert s[i..][..Toma(s[i..])] == s[i..i + Toma(s[i..])];
  }

  lemma RunGrows(total: string, r: string, corrida: string, t: string, resto: string)
    requires total == r + corrida + (t + resto)
    ensures total == r + (corrida + t) + resto
  {
  }

  method AppendJSONString(dst: string, s: string) returns (r: string)
    ensures r == dst + "\"" + Escapada(s) + "\""
  {
    var simples := JsonSimples(s);
    if simples {
      SimpleIsUnchanged(s);
      return dst + "\"" + s + "\"";
    }
    r := EscaparEmTrechos(dst + "\"", s);
    r := r + "\"";
  }

  /** `t[i]` is what the bytes from `i` on become. */
  ghost predicate Sufixos(s: string, t: seq<string>) {
    && |t| == |s| + 1 && t[|s|] == ""
    && forall i {:trigger Vira(s, t, i)} :: 0 <= i < |s| ==> Vira(s, t, i)
  }

  ghost predicate Vira(s: string, t: seq<string>, i: nat)
    requires i < |s| && |t| == |s| + 1
  {
    t[i] == Trecho(s[i..]) + t[i + Toma(s[i..])]
  }

  lemma SuffixTable(s: string) returns (t: seq<string>)
    ensures Sufixos(s, t) && t[0] == Escapada(s)
  {
    t := TodosOsSufixos(s);
    assert s[0..] == s;
    assert t[|s|] == Escapada(s[|s|..]) == "";
    forall i | 0 <= i < |s| ensures Vira(s, t, i) { SuffixAt(s, t, i); }
  }

  ghost function TodosOsSufixos(s: string): (t: seq<string>)
    ensures |t| == |s| + 1 && forall i {:trigger t[i]} :: 0 <= i <= |s| ==> t[i] == Escapada(s[i..])
  {
    seq(|s| + 1, i requires 0 <= i <= |s| => Escapada(s[i..]))
  }

  lemma SuffixAt(s: string, t: seq<string>, i: nat)
    requires i < |s| && |t| == |s| + 1 && t[i] == Escapada(s[i..])
    requires t[i + Toma(s[i..])] == Escapada(s[i + Toma(s[i..])..])
    ensures Vira(s, t, i)
  {
    Turno(s, i);
  }

  /** Copies runs of plain bytes and breaks a run only to escape or replace. */
  method EscaparEmTrechos(dst: string, s: string) returns (r: string)
    ensures r == dst + Escapada(s)
  {
    ghost var t := SuffixTable(s);
    r := EscaparTabela(dst, s, t);
  }

  method EscaparTabela(dst: string, s: string, ghost t: seq<string>) returns (r: string)
    requires Sufixos(s, t)
    ensures r == dst + t[0]
  {
    r := dst;
    var inicio: nat, i: nat := 0, 0;
    while i < |s|
      invariant inicio <= i <= |s|
      invariant dst + t[0] == r + s[inicio..i] + t[i]
    {
      var tamanho, troca := Vez(s, i, t);
      if troca == "" {
        RunGrows(dst + t[0], r, s[inicio..i], s[i..i + tamanho], t[i + tamanho]);
        Estende(s, inicio, i, tamanho);
        i := i + tamanho;
      } else {
        RunGrows(dst + t[0], r, s[inicio..i], troca, t[i + tamanho]);
        r := r + s[inicio..i] + troca;
        i := i + tamanho;
        inicio := i;
      }
    }
    r := r + s[inicio..];
  }

  lemma Estende(s: string, a: nat, b: nat, n: nat)
    requires a <= b && b + n <= |s|
    ensures s[a..b + n] == s[a..b] + s[b..b + n]
  {
  }

  /** What the loop does with the byte at `i`: bytes taken, and what replaces them
      (nothing when they are copied). */
  method Vez(s: string, i: nat, ghost t: seq<string>) returns (tamanho: nat, troca: string)
    requires i < |s| && Sufixos(s, t)
    ensures 0 < tamanho <= |s| - i
    ensures t[i] == (if troca == "" then s[i..i + tamanho] else troca) + t[i + tamanho]
  {
    assert Vira(s, t, i);
    var b := s[i];
    if b as int < 0x80 {
      if Simples(b) {
        Copiado(s, i);
        return 1, "";
      }
      return 1, Escape(b);
    }
    tamanho := RuneLen(s[i..]);
    if tamanho == 0 {
      return 1, TROCA;
    }
    Copiado(s, i);
    return tamanho, "";
  }

  // ---- a reader: section 7 of RFC 8259 ------------------------------------

  function HexValue(c: char): Option<nat> {
    if Entre(c, '0' as int, '9' as int) then Some(c as int - '0' as int)
    else if Entre(c, 'a' as int, 'f' as int) then Some(c as int - 'a' as int + 10)
    else if Entre(c, 'A' as int, 'F' as int) then Some(c as int - 'A' as int + 10)
    else None
  }

  /** The code unit of four hexadecimal digits. */
  function Hex4(t: string): Option<nat> {
    if |t| < 4 || HexValue(t[0]).None? || HexValue(t[1]).None? || HexValue(t[2]).None? || HexValue(t[3]).None?
    then None
    else Some(((HexValue(t[0]).value * 16 + HexValue(t[1]).value) * 16 + HexValue(t[2]).value) * 16 + HexValue(t[3]).value)
  }

  function Cont(v: nat): char {
    (0x80 + v % 64) as char
  }

  /** A code point in UTF-8. */
  function EncodeRune(cp: nat): string
    requires cp <= 0x10FFFF
  {
    if cp < 0x80 then [cp as char]
    else if cp < 0x800 then [(0xC0 + cp / 64) as char, Cont(cp)]
    else if cp < 0x1_0000 then [(0xE0 + cp / 4096) as char, Cont(cp / 64), Cont(cp)]
    else [(0xF0 + cp / 262144) as char, Cont(cp / 4096), Cont(cp / 64), Cont(cp)]
  }

  predicate Surrogate(u: nat) {
    0xD800 <= u <= 0xDFFF
  }

  /** `\uXXXX`, or a surrogate pair of them; a lone surrogate is refused. */
  function LerUnicode(t: string): Option<(string, nat)>
    requires |t| >= 2
  {
    match Hex4(t[2..])
    case None => None
    case Some(u) =>
      if u > 0xFFFF then None
      else if !Surrogate(u) then Some((EncodeRune(u), 6))
      else if |t| < 12 || t[6] != '\\' || t[7] != 'u' then None
      else match Hex4(t[8..])
           case None => None
           case Some(v) =>
             if u <= 0xDBFF && 0xDC00 <= v <= 0xDFFF
             then Some((EncodeRune(0x1_0000 + (u - 0xD800) * 0x400 + (v - 0xDC00)), 12)) else None
  }

  function LerEscape(t: string): Option<(string, nat)>
    requires t != ""
  {
    if |t| < 2 then None
    else if t[1] == '"' || t[1] == '\\' || t[1] == '/' then Some(([t[1]], 2))
    else if t[1] == 'b' then Some(([8 as char], 2))
    else if t[1] == 'f' then Some(([12 as char], 2))
    else if t[1] == 'n' then Some(("\n", 2))
    else if t[1] == 'r' then Some(("\r", 2))
    else if t[1] == 't' then Some(("\t", 2))
    else if t[1] == 'u' then LerUnicode(t)
    else None
  }

  /** One character of a string: its bytes and how many bytes of text it took. Control
      bytes and invalid UTF-8 are refused. */
  function LerRuna(t: string): (r: Option<(string, nat)>)
    requires t != ""
    ensures r.Some? ==> 0 < r.value.1 <= |t|
  {
    if t[0] as int < 0x20 then None
    else if t[0] == '\\' then
      var r := LerEscape(t);
      if r.Some? && r.value.1 <= |t| then r else None
    else if RuneLen(t) == 0 then None
    else Some((t[..RuneLen(t)], RuneLen(t)))
  }

  /** A string after its opening quote, and the text after its closing quote. */
  function LerTexto(t: string): (r: Option<(string, string)>)
    ensures r.Some? ==> |r.value.1| < |t|
  {
    if t == "" then None
    else if t[0] == '"' then Some(("", t[1..]))
    else match LerRuna(t)
         case None => None
         case Some(c) =>
           match LerTexto(t[c.1..])
           case None => None
           case Some(r) => Some((c.0 + r.0, r.1))
  }

  lemma HexRoundTrip(d: nat)
    requires d < 16
    ensures HexValue(HexDigit(d)) == Some(d)
  {
  }

  lemma ReadsEscape(b: char, x: string)
    requires b as int < 0x80
    ensures LerRuna(Escape(b) + x) == Some(([b], |Escape(b)|))
    ensures Escape(b)[0] != '"'
  {
    var t := Escape(b) + x;
    if b as int < 0x20 && b != '\n' && b != '\r' && b != '\t' {
      HexRoundTrip(b as int / 16);
      HexRoundTrip(b as int % 16);
      var h := t[2..];
      assert h[0] == '0' && h[1] == '0' && h[2] == HexDigit(b as int / 16) && h[3] == HexDigit(b as int % 16);
      assert HexValue('0') == Some(0);
      assert Hex4(h) == Some(b as int);
    } else if b == '"' || b == '\\' || b == '\n' || b == '\r' || b == '\t' {
      assert t[0] == '\\' && t[1] == Escape(b)[1];
    } else {
      assert t[0] == b;
      assert t[..1] == [b];
    }
  }

  lemma ReadsRune(s: string, x: string)
    requires s != "" && s[0] as int >= 0x80
    ensures LerRuna(Runa(s) + x) == Some((Runa(s), |Runa(s)|))
    ensures Runa(s)[0] != '"'
  {
    RunaIsWhole(s);
    RuneLenLocal(Runa(s), x);
    assert (Runa(s) + x)[..|Runa(s)|] == Runa(s);
    assert Runa(s)[0] as int >= 0x80;
  }

  /** The reader's own table: the two-character escapes, and hexadecimal digits of either
      case. */
  lemma EscapesRead(c: char, d: nat, x: string)
    requires d < 16
    ensures LerRuna(['\\', c] + x) ==
              if c == '"' || c == '\\' || c == '/' then Some(([c], 2))
              else if c == 'b' then Some(([8 as char], 2)) else if c == 'f' then Some(([12 as char], 2))
              else if c == 'n' then Some(([10 as char], 2)) else if c == 'r' then Some(([13 as char], 2))
              else if c == 't' then Some(([9 as char], 2)) else if c == 'u' then LerRuna("\\u" + x) else None
    ensures HexValue("0123456789abcdef"[d]) == Some(d) == HexValue("0123456789ABCDEF"[d])
    ensures HexValue(c).Some? ==> c in "0123456789abcdefABCDEF"
  {
    var t := ['\\', c] + x;
    assert t[0] == '\\' && t[1] == c;
    assert c == 'u' ==> t == "\\u" + x;
    assert HexValue(c).Some? ==> c in "0123456789" || c in "abcdef" || c in "ABCDEF" by { HexInRange(c); }
  }

  lemma HexInRange(c: char)
    ensures '0' <= c <= '9' <==> c in "0123456789"
    ensures 'a' <= c <= 'f' <==> c in "abcdef"
    ensures 'A' <= c <= 'F' <==> c in "ABCDEF"
  {
    if '0' <= c <= '9' { assert "0123456789"[c as int - '0' as int] == c; }
    if 'a' <= c <= 'f' { assert "abcdef"[c as int - 'a' as int] == c; }
    if 'A' <= c <= 'F' { assert "ABCDEF"[c as int - 'A' as int] == c; }
  }

  /** What one turn of the writer wrote, the reader takes back. */
  lemma ReadsTrecho(s: string, x: string)
    requires s != ""
    ensures LerRuna(Trecho(s) + x) == Some((Runa(s), |Trecho(s)|))
    ensures Trecho(s) != "" && Trecho(s)[0] != '"'
  {
    if s[0] as int < 0x80 {
      ReadsEscape(s[0], x);
      assert Runa(s) == [s[0]];
    } else {
      ReadsRune(s, x);
    }
  }

  /** One character taken off a text that goes on as `depois`. */
  lemma ReadsOne(trecho: string, depois: string, runa: string, l: string, x: string)
    requires trecho != "" && trecho[0] != '"' && LerRuna(trecho + depois) == Some((runa, |trecho|))
    requires LerTexto(depois) == Some((l, x))
    ensures LerTexto(trecho + depois) == Some((runa + l, x))
  {
    assert (trecho + depois)[|trecho|..] == depois;
  }

  lemma OnePieceFirst(s: string, x: string)
    requires s != ""
    ensures Escapada(s) + "\"" + x == Trecho(s) + (Escapada(s[Toma(s)..]) + "\"" + x)
  {
    var resto := Escapada(s[Toma(s)..]);
    assert Escapada(s) == Trecho(s) + resto;
    assert Trecho(s) + resto + "\"" + x == Trecho(s) + (resto + "\"" + x);
  }

  /** Reading what was written gives the text back, invalid bytes replaced. */
  lemma {:induction false} ReadsWritten(s: string, x: string)
    ensures LerTexto(Escapada(s) + "\"" + x) == Some((Limpa(s), x))
  {
    if s == "" {
      assert Escapada(s) + "\"" + x == "\"" + x;
      assert ("\"" + x)[1..] == x;
    } else {
      var resto := s[Toma(s)..];
      var depois := Escapada(resto) + "\"" + x;
      ReadsWritten(resto, x);
      ReadsTrecho(s, depois);
      OnePieceFirst(s, x);
      ReadsOne(Trecho(s), depois, Runa(s), Limpa(resto), x);
    }
  }
}
