/** Why sort.Strings stands for Python's sort_keys: on UTF-8 texts the order of the bytes
    is the order of the code points. */
module ByteOrder {
  import opened JsonText
  import opened KeyOrder

  predicate Escalar(cp: nat) {
    cp <= 0x10FFFF && !Surrogate(cp)
  }

  predicate Escalares(cps: seq<nat>) {
    forall i :: 0 <= i < |cps| ==> Escalar(cps[i])
  }

  function Codifica(cps: seq<nat>): string
    requires Escalares(cps)
  {
    if cps == [] then "" else EncodeRune(cps[0]) + Codifica(cps[1..])
  }

  /** The texts spoken of: any list of code points outside the surrogates, each encoded in
      its place. */
  lemma EncodedTexts(cp: nat, cps: seq<nat>)
    ensures Escalares(cps) <==> forall i :: 0 <= i < |cps| ==> cps[i] <= 0x10FFFF && !(0xD800 <= cps[i] <= 0xDFFF)
    ensures Codifica([]) == ""
    ensures Escalar(cp) && Escalares(cps) ==> Escalares([cp] + cps) && Codifica([cp] + cps) == EncodeRune(cp) + Codifica(cps)
  {
    assert ([cp] + cps)[1..] == cps;
  }

  predicate AntesCp(a: seq<nat>, b: seq<nat>) {
    b != [] && (a == [] || a[0] < b[0] || (a[0] == b[0] && AntesCp(a[1..], b[1..])))
  }

  // ---- what is valid UTF-8 -------------------------------------------------

  /** A code point is encoded as one whole valid sequence... */
  lemma EncodeIsOneRune(cp: nat)
    requires Escalar(cp)
    ensures RuneLen(EncodeRune(cp)) == |EncodeRune(cp)|
  {
    if 0x800 <= cp < 0x1_0000 { ThreeBytes(cp); }
    if cp >= 0x1_0000 { FourBytes(cp); }
  }

  lemma ThreeBytes(cp: nat)
    requires 0x800 <= cp < 0x1_0000 && !Surrogate(cp)
    ensures RuneLen([(0xE0 + cp / 4096) as char, Cont(cp / 64), Cont(cp)]) == 3
  {
    var d := cp / 64;
    assert cp / 4096 == d / 64 && d == 64 * (d / 64) + d % 64;
    assert cp < 0x1000 ==> d / 64 == 0 && d >= 32;
    assert cp == 64 * d + cp % 64;
    assert d / 64 == 13 && d % 64 >= 32 ==> 0xD800 <= cp <= 0xDFFF;
  }

  lemma FourBytes(cp: nat)
    requires 0x1_0000 <= cp <= 0x10FFFF
    ensures RuneLen([(0xF0 + cp / 262144) as char, Cont(cp / 4096), Cont(cp / 64), Cont(cp)]) == 4
  {
    var d := cp / 4096;
    assert cp / 262144 == d / 64 && d == 64 * (d / 64) + d % 64 && 16 <= d <= 0x10F;
  }

  /** ...and every valid sequence is the encoding of a code point. */
  lemma OneRuneIsEncoding(s: string) returns (cp: nat)
    requires s != "" && RuneLen(s) > 0
    ensures Escalar(cp) && EncodeRune(cp) == s[..RuneLen(s)]
  {
    var n := RuneLen(s);
    var b := s[0] as int;
    if n == 1 {
      cp := b;
    } else if n == 2 {
      cp := 64 * (b - 0xC0) + (s[1] as int - 0x80);
      Digits64(b - 0xC0, s[1] as int - 0x80);
      assert EncodeRune(cp) == [s[0], s[1]];
    } else if n == 3 {
      var c1, c2 := s[1] as int - 0x80, s[2] as int - 0x80;
      var d := 64 * (b - 0xE0) + c1;
      cp := 64 * d + c2;
      Digits64(b - 0xE0, c1);
      Digits64(d, c2);
      assert cp / 4096 == d / 64;
      assert EncodeRune(cp) == [s[0], s[1], s[2]];
    } else {
      var c1, c2, c3 := s[1] as int - 0x80, s[2] as int - 0x80, s[3] as int - 0x80;
      var e := 64 * (b - 0xF0) + c1;
      var d := 64 * e + c2;
      cp := 64 * d + c3;
      Digits64(b - 0xF0, c1);
      Digits64(e, c2);
      Digits64(d, c3);
      assert cp / 4096 == d / 64 && cp / 262144 == e / 64;
      assert EncodeRune(cp) == [s[0], s[1], s[2], s[3]];
    }
  }

  lemma Digits64(a: nat, r: nat)
    requires r < 64
    ensures (64 * a + r) / 64 == a && (64 * a + r) % 64 == r
  {
  }

  lemma {:induction false} AntesAt(a: string, b: string, k: nat)
    requires k < |a| && k < |b| && a[..k] == b[..k] && a[k] < b[k]
    ensures Antes(a, b)
  {
    if k > 0 {
      assert a[0] == a[..k][0] == b[..k][0] == b[0];
      assert a[1..][..k - 1] == a[..k][1..] == b[..k][1..] == b[1..][..k - 1];
      AntesAt(a[1..], b[1..], k - 1);
    }
  }

  lemma AntesShared(c: string, x: string, y: string)
    ensures Antes(c + x, c + y) == Antes(x, y)
  {
    if c == "" {
      assert c + x == x && c + y == y;
    } else {
      AntesShared(c[1..], x, y);
      assert (c + x)[1..] == c[1..] + x && (c + y)[1..] == c[1..] + y;
    }
  }

  lemma Digits(p: nat, q: nat)
    requires p < q
    ensures p / 64 < q / 64 || (p / 64 == q / 64 && p % 64 < q % 64)
    ensures p / 4096 == p / 64 / 64 && q / 4096 == q / 64 / 64
    ensures p / 262144 == p / 4096 / 64 && q / 262144 == q / 4096 / 64
  {
  }

  /** Where the encodings of two code points first differ. */
  ghost predicate DifferAt(a: string, b: string, k: nat) {
    k < |a| && k < |b| && a[..k] == b[..k] && a[k] < b[k]
  }

  lemma Differ2(p: nat, q: nat)
    requires 0x80 <= p < q < 0x800
    ensures exists k: nat :: DifferAt(EncodeRune(p), EncodeRune(q), k)
  {
    Digits(p, q);
    assert DifferAt(EncodeRune(p), EncodeRune(q), if p / 64 < q / 64 then 0 else 1);
  }

  lemma Differ3(p: nat, q: nat)
    requires 0x800 <= p < q < 0x1_0000
    ensures exists k: nat :: DifferAt(EncodeRune(p), EncodeRune(q), k)
  {
    var a, b := EncodeRune(p), EncodeRune(q);
    Digits(p, q);
    if p / 64 == q / 64 {
      assert DifferAt(a, b, 2);
    } else {
      Digits(p / 64, q / 64);
      assert DifferAt(a, b, if p / 4096 < q / 4096 then 0 else 1);
    }
  }

  lemma Differ4(p: nat, q: nat)
    requires 0x1_0000 <= p < q <= 0x10FFFF
    ensures exists k: nat :: DifferAt(EncodeRune(p), EncodeRune(q), k)
  {
    var a, b := EncodeRune(p), EncodeRune(q);
    Digits(p, q);
    if p / 64 == q / 64 {
      assert DifferAt(a, b, 3);
    } else {
      Digits(p / 64, q / 64);
      if p / 4096 == q / 4096 {
        assert DifferAt(a, b, 2);
      } else {
        Digits(p / 4096, q / 4096);
        assert DifferAt(a, b, if p / 262144 < q / 262144 then 0 else 1);
      }
    }
  }

  lemma Differ(p: nat, q: nat)
    requires p < q && Escalar(p) && Escalar(q)
    ensures exists k: nat :: DifferAt(EncodeRune(p), EncodeRune(q), k)
  {
    if |EncodeRune(p)| < |EncodeRune(q)| || q < 0x80 {
      assert DifferAt(EncodeRune(p), EncodeRune(q), 0);
    } else if q < 0x800 {
      Differ2(p, q);
    } else if q < 0x1_0000 {
      Differ3(p, q);
    } else {
      Differ4(p, q);
    }
  }

  lemma RuneOrder(p: nat, q: nat, x: string, y: string)
    requires p < q && Escalar(p) && Escalar(q)
    ensures Antes(EncodeRune(p) + x, EncodeRune(q) + y)
  {
    Differ(p, q);
    var k: nat :| DifferAt(EncodeRune(p), EncodeRune(q), k);
    var a, b := EncodeRune(p) + x, EncodeRune(q) + y;
    assert a[..k] == EncodeRune(p)[..k] && b[..k] == EncodeRune(q)[..k];
    AntesAt(a, b, k);
  }

  /** Sorting keys by bytes is sorting them by code points. */
  lemma {:induction false} ByteOrderIsCodePointOrder(a: seq<nat>, b: seq<nat>)
    requires Escalares(a) && Escalares(b)
    ensures Antes(Codifica(a), Codifica(b)) <==> AntesCp(a, b)
  {
    if a != [] && b != [] {
      var x, y := Codifica(a[1..]), Codifica(b[1..]);
      if a[0] < b[0] {
        RuneOrder(a[0], b[0], x, y);
      } else if b[0] < a[0] {
        RuneOrder(b[0], a[0], y, x);
        AntesTotal(Codifica(b), Codifica(a));
      } else {
        ByteOrderIsCodePointOrder(a[1..], b[1..]);
        AntesShared(EncodeRune(a[0]), x, y);
      }
    }
  }
}
