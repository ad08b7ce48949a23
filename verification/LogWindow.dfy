/** internal/application/execution/janela.go: the capped window over a step's output. */
module LogWindow {
  import opened Identity
  import opened Decimal

  const TETO := 131072
  const FATIA := TETO / 4

  /** Each line with its line break. */
  function Texto(ls: seq<string>): string {
    if ls == [] then "" else Texto(ls[..|ls| - 1]) + ls[|ls| - 1] + "\n"
  }

  function Bytes(ls: seq<string>): nat {
    if ls == [] then 0 else Bytes(ls[..|ls| - 1]) + |ls[|ls| - 1]| + 1
  }

  lemma {:induction false} BytesIsLength(ls: seq<string>)
    ensures |Texto(ls)| == Bytes(ls)
  {
    if ls != [] { BytesIsLength(ls[..|ls| - 1]); }
  }

  lemma Snoc(ls: seq<string>, l: string)
    ensures Texto(ls + [l]) == Texto(ls) + l + "\n" && Bytes(ls + [l]) == Bytes(ls) + |l| + 1
  {
    assert (ls + [l])[..|ls|] == ls;
  }

  lemma {:induction false} BytesAppend(a: seq<string>, b: seq<string>)
    ensures Bytes(a + b) == Bytes(a) + Bytes(b)
  {
    if b == [] {
      assert a + b == a;
    } else {
      BytesAppend(a, b[..|b| - 1]);
      assert (a + b)[..|a + b| - 1] == a + b[..|b| - 1];
    }
  }

  // ---- where each line goes ------------------------------------------------

  /** Whether a line goes to the head, given the lines the head holds. */
  predicate Cabe(cabeca: seq<string>, linha: string) {
    Bytes(cabeca) + |linha| + 1 <= FATIA
  }

  /** The lines of the head and the lines diverted past it, each in order. */
  function Cabeca(ls: seq<string>): seq<string> {
    if ls == [] then []
    else
      var c := Cabeca(ls[..|ls| - 1]);
      if Cabe(c, ls[|ls| - 1]) then c + [ls[|ls| - 1]] else c
  }

  function Desviadas(ls: seq<string>): seq<string> {
    if ls == [] then []
    else
      var d := Desviadas(ls[..|ls| - 1]);
      if Cabe(Cabeca(ls[..|ls| - 1]), ls[|ls| - 1]) then d else d + [ls[|ls| - 1]]
  }

  lemma {:induction false} HeadFits(ls: seq<string>)
    ensures Bytes(Cabeca(ls)) <= FATIA
    ensures Bytes(Cabeca(ls)) + Bytes(Desviadas(ls)) == Bytes(ls)
    ensures |Cabeca(ls)| + |Desviadas(ls)| == |ls|
  {
    if ls != [] {
      HeadFits(ls[..|ls| - 1]);
      Snoc(Cabeca(ls[..|ls| - 1]), ls[|ls| - 1]);
      Snoc(Desviadas(ls[..|ls| - 1]), ls[|ls| - 1]);
    }
  }

  /** `a` and `b` are the lines dealt into two piles, each in its order. */
  ghost predicate Repartidas(ls: seq<string>, a: seq<string>, b: seq<string>)
    decreases |ls|
  {
    if ls == [] then a == [] && b == []
    else
      var n, l := |ls| - 1, ls[|ls| - 1];
      || (a != [] && a[|a| - 1] == l && Repartidas(ls[..n], a[..|a| - 1], b))
      || (b != [] && b[|b| - 1] == l && Repartidas(ls[..n], a, b[..|b| - 1]))
  }

  lemma {:induction false} LinesAreDealt(ls: seq<string>)
    ensures Repartidas(ls, Cabeca(ls), Desviadas(ls))
  {
    if ls != [] {
      var antes, l := ls[..|ls| - 1], ls[|ls| - 1];
      LinesAreDealt(antes);
      assert (Cabeca(antes) + [l])[..|Cabeca(antes)|] == Cabeca(antes);
      assert (Desviadas(antes) + [l])[..|Desviadas(antes)|] == Desviadas(antes);
    }
  }

  /** A prefix of lines that fits stays in the head whole, and nothing of it is diverted. */
  lemma {:induction false} FittingPrefix(ls: seq<string>)
    requires Bytes(ls) <= FATIA
    ensures Cabeca(ls) == ls && Desviadas(ls) == []
  {
    if ls != [] {
      FittingPrefix(ls[..|ls| - 1]);
      assert ls == ls[..|ls| - 1] + [ls[|ls| - 1]];
    }
  }

  /** No line comes back into the head once one was diverted: the first line that does not
      fit leaves less room than any later line needs. */
  predicate NinguemVolta(ls: seq<string>) {
    forall i, j {:trigger Estoura(ls, i), ls[j]} :: 0 <= i < j < |ls| && Estoura(ls, i) ==> !Volta(ls, i, j)
  }

  /** Line `i` is the first that does not fit. */
  predicate Estoura(ls: seq<string>, i: nat)
    requires i < |ls|
  {
    Bytes(ls[..i]) <= FATIA < Bytes(ls[..i + 1])
  }

  predicate Volta(ls: seq<string>, i: nat, j: nat)
    requires i < j < |ls|
  {
    Bytes(ls[..i]) + |ls[j]| + 1 <= FATIA
  }

  predicate NinguemVoltaAte(ls: seq<string>, i: nat, k: nat)
    requires k <= |ls|
  {
    forall j :: i < j < k ==> !Volta(ls, i, j)
  }

  lemma DivertedSnoc(ls: seq<string>, l: string, h: seq<string>, d: seq<string>)
    requires Cabeca(ls) == h && Desviadas(ls) == d && !Cabe(h, l)
    ensures Cabeca(ls + [l]) == h && Desviadas(ls + [l]) == d + [l]
  {
    HeadSnoc(ls, l);
  }

  lemma HeadSnoc(ls: seq<string>, l: string)
    ensures Cabeca(ls + [l]) == if Cabe(Cabeca(ls), l) then Cabeca(ls) + [l] else Cabeca(ls)
    ensures Desviadas(ls + [l]) == if Cabe(Cabeca(ls), l) then Desviadas(ls) else Desviadas(ls) + [l]
  {
    assert (ls + [l])[..|ls|] == ls;
  }

  /** Where a line goes, by lengths of text: into the head as long as the head, with it and
      its line break, keeps to 32768 bytes, and past it otherwise. */
  lemma WhereALineGoes(ls: seq<string>, l: string)
    ensures Cabeca([]) == [] && Desviadas([]) == [] && Texto([]) == "" && Texto(ls + [l]) == Texto(ls) + l + "\n"
    ensures if |Texto(Cabeca(ls))| + |l| + 1 <= 32768
            then Cabeca(ls + [l]) == Cabeca(ls) + [l] && Desviadas(ls + [l]) == Desviadas(ls)
            else Cabeca(ls + [l]) == Cabeca(ls) && Desviadas(ls + [l]) == Desviadas(ls) + [l]
    ensures Bytes(ls) == |Texto(ls)|
  {
    HeadSnoc(ls, l);
    Snoc(ls, l);
    BytesIsLength(ls);
    BytesIsLength(Cabeca(ls));
  }

  /** Lines dealt in two are all there, each once. */
  lemma {:induction false} DealtIsAPartition(ls: seq<string>, a: seq<string>, b: seq<string>)
    requires Repartidas(ls, a, b)
    ensures multiset(ls) == multiset(a) + multiset(b) && |ls| == |a| + |b|
    decreases |ls|
  {
    if ls != [] {
      var n, l := |ls| - 1, ls[|ls| - 1];
      assert ls == ls[..n] + [l];
      if a != [] && a[|a| - 1] == l && Repartidas(ls[..n], a[..|a| - 1], b) {
        assert a == a[..|a| - 1] + [l];
        DealtIsAPartition(ls[..n], a[..|a| - 1], b);
      } else {
        assert b == b[..|b| - 1] + [l];
        DealtIsAPartition(ls[..n], a, b[..|b| - 1]);
      }
    }
  }

  lemma {:induction false} BytesMonotone(ls: seq<string>, i: nat, j: nat)
    requires i <= j <= |ls|
    ensures Bytes(ls[..i]) + (j - i) <= Bytes(ls[..j])
  {
    if i < j {
      BytesMonotone(ls, i, j - 1);
      assert ls[..j][..j - 1] == ls[..j - 1];
    }
  }

  lemma {:induction false} FirstDiverted(ls: seq<string>) returns (i: nat)
    requires Bytes(ls) > FATIA
    ensures i < |ls| && Estoura(ls, i)
  {
    var n := |ls| - 1;
    assert ls[..n + 1] == ls;
    if Bytes(ls[..n]) <= FATIA {
      i := n;
    } else {
      i := FirstDiverted(ls[..n]);
      assert ls[..n][..i] == ls[..i] && ls[..n][..i + 1] == ls[..i + 1];
    }
  }

  /** After the first diverted line `i`, as long as no line comes back. */
  lemma {:induction false} HeadStays(ls: seq<string>, i: nat, k: nat)
    requires i < k <= |ls| && Estoura(ls, i) && NinguemVoltaAte(ls, i, k)
    ensures Cabeca(ls[..k]) == ls[..i] && Desviadas(ls[..k]) == ls[i..k]
  {
    var antes, l := ls[..k - 1], ls[k - 1];
    assert ls[..k] == antes + [l];
    if k == i + 1 {
      Snoc(antes, l);
      FittingPrefix(antes);
    } else {
      HeadStays(ls, i, k - 1);
      assert !Volta(ls, i, k - 1);
    }
    assert ls[i..k] == ls[i..k - 1] + [l];
    DivertedSnoc(antes, l, ls[..i], ls[i..k - 1]);
  }

  /** The first line `j` that comes back after the first diverted line `i`. */
  lemma ComesBack(ls: seq<string>, i: nat, j: nat)
    requires i < j < |ls| && Estoura(ls, i) && Volta(ls, i, j) && NinguemVoltaAte(ls, i, j)
    ensures Cabeca(ls[..j + 1]) == ls[..i] + [ls[j]]
  {
    HeadStays(ls, i, j);
    assert ls[..j + 1] == ls[..j] + [ls[j]];
    HeadSnoc(ls[..j], ls[j]);
  }

  lemma {:induction false} HeadGrows(ls: seq<string>, k: nat)
    requires k <= |ls|
    ensures Cabeca(ls[..k]) <= Cabeca(ls)
  {
    if k < |ls| {
      HeadGrows(ls[..|ls| - 1], k);
      assert ls[..|ls| - 1][..k] == ls[..k];
    } else {
      assert ls[..k] == ls;
    }
  }

  /** The window shows the lines in the order they were written exactly when no short line
      comes back into the head. */
  lemma InOrderIff(ls: seq<string>)
    ensures Cabeca(ls) + Desviadas(ls) == ls <==> NinguemVolta(ls)
  {
    if Bytes(ls) <= FATIA {
      EverythingFits(ls);
    } else {
      var i := FirstDiverted(ls);
      if NinguemVoltaAte(ls, i, |ls|) {
        InOrderAfter(ls, i);
      } else {
        var j := FirstBack(ls, i);
        OutOfOrder(ls, i, j);
      }
    }
  }

  lemma EverythingFits(ls: seq<string>)
    requires Bytes(ls) <= FATIA
    ensures Cabeca(ls) + Desviadas(ls) == ls && NinguemVolta(ls)
  {
    FittingPrefix(ls);
    NothingDiverted(ls);
  }

  lemma InOrderAfter(ls: seq<string>, i: nat)
    requires i < |ls| && Estoura(ls, i) && NinguemVoltaAte(ls, i, |ls|)
    ensures Cabeca(ls) + Desviadas(ls) == ls && NinguemVolta(ls)
  {
    HeadStays(ls, i, |ls|);
    assert ls[..|ls|] == ls;
    assert ls[..i] + ls[i..] == ls;
    OneFirst(ls, i);
  }

  lemma OutOfOrder(ls: seq<string>, i: nat, j: nat)
    requires i < j < |ls| && Estoura(ls, i) && Volta(ls, i, j) && NinguemVoltaAte(ls, i, j)
    ensures Cabeca(ls) + Desviadas(ls) != ls && !NinguemVolta(ls)
  {
    HeadAt(ls, i, j);
    FirstIsLong(ls, i);
    PositionDiffers(Cabeca(ls), Desviadas(ls), ls, i);
  }

  lemma HeadAt(ls: seq<string>, i: nat, j: nat)
    requires i < j < |ls| && Estoura(ls, i) && Volta(ls, i, j) && NinguemVoltaAte(ls, i, j)
    ensures i < |Cabeca(ls)| && Cabeca(ls)[i] == ls[j]
  {
    ComesBack(ls, i, j);
    HeadGrows(ls, j + 1);
    var h := ls[..i] + [ls[j]];
    assert h[i] == ls[j];
    assert h <= Cabeca(ls);
  }

  lemma PositionDiffers(c: seq<string>, d: seq<string>, ls: seq<string>, i: nat)
    requires i < |c| && i < |ls| && c[i] != ls[i]
    ensures c + d != ls
  {
    assert (c + d)[i] == c[i];
  }

  lemma FirstIsLong(ls: seq<string>, i: nat)
    requires i < |ls| && Estoura(ls, i)
    ensures Bytes(ls[..i]) + |ls[i]| + 1 > FATIA
  {
    assert ls[..i + 1] == ls[..i] + [ls[i]];
    Snoc(ls[..i], ls[i]);
  }

  lemma NothingDiverted(ls: seq<string>)
    requires Bytes(ls) <= FATIA
    ensures NinguemVolta(ls)
  {
    assert ls[..|ls|] == ls;
    forall i | 0 <= i < |ls| ensures !Estoura(ls, i) {
      BytesMonotone(ls, i + 1, |ls|);
    }
  }

  lemma OneFirst(ls: seq<string>, i: nat)
    requires i < |ls| && Estoura(ls, i) && NinguemVoltaAte(ls, i, |ls|)
    ensures NinguemVolta(ls)
  {
    forall a, j | 0 <= a < j < |ls| && Estoura(ls, a) ensures !Volta(ls, a, j) {
      if a < i { BytesMonotone(ls, a + 1, i); }
      if i < a { BytesMonotone(ls, i + 1, a); }
    }
  }

  lemma {:induction false} FirstBack(ls: seq<string>, i: nat) returns (j: nat)
    requires i < |ls| && !NinguemVoltaAte(ls, i, |ls|)
    ensures i < j < |ls| && Volta(ls, i, j) && NinguemVoltaAte(ls, i, j)
  {
    var m :| i < m < |ls| && Volta(ls, i, m);
    j := i + 1;
    while !Volta(ls, i, j)
      invariant i < j <= m && NinguemVoltaAte(ls, i, j)
      decreases m - j
    {
      j := j + 1;
    }
  }

  // ---- the object --------------------------------------------------------

  /** strings.Join(ls, "\n") + "\n", or nothing. */
  function Linhas(ls: seq<string>): string {
    if ls == [] then "" else Join(ls, '\n') + "\n"
  }

  lemma {:induction false} TextoAppend(a: seq<string>, b: seq<string>)
    ensures Texto(a + b) == Texto(a) + Texto(b)
  {
    if b == [] {
      assert a + b == a;
    } else {
      TextoAppend(a, b[..|b| - 1]);
      assert (a + b)[..|a + b| - 1] == a + b[..|b| - 1];
    }
  }

  lemma {:induction false} LinhasIsTexto(ls: seq<string>)
    ensures Linhas(ls) == Texto(ls)
  {
    if |ls| == 1 {
      assert ls[..0] == [];
    } else if ls != [] {
      LinhasIsTexto(ls[1..]);
      assert ls == [ls[0]] + ls[1..];
      TextoAppend([ls[0]], ls[1..]);
      assert [ls[0]][..0] == [];
    }
  }

  function EmKB(n: int): string {
    if n < 1024 then Itoa(n) + " B" else Itoa(n / 1024) + " KB"
  }

  /** The mark says how much was left out, in bytes below 1 KB and in whole KB from there. */
  lemma MarkText(n: int)
    ensures n < 1024 ==> Marca(n) == "\n[... " + (Itoa(n) + " B") + " omitidos pelo limite de " + "128 KB" + " por passo ...]\n\n"
    ensures n >= 1024 ==> Marca(n) == "\n[... " + (Itoa(n / 1024) + " KB") + " omitidos pelo limite de " + "128 KB" + " por passo ...]\n\n"
  {
    assert ItoaNat(1) == "1" && ItoaNat(12) == "12" && ItoaNat(128) == "128";
    assert EmKB(131072) == "128 KB";
  }

  /** `fim` is the last of the diverted lines `d`; the counters are those of the two parts. */
  ghost predicate Cauda(d: seq<string>, fim: seq<string>, fimLen: int, cortado: int) {
    |fim| <= |d| && fim == d[|d| - |fim|..] && fimLen == Bytes(fim) && cortado == Bytes(d) - Bytes(fim)
  }

  lemma AddLast(d: seq<string>, fim: seq<string>, fimLen: int, cortado: int, l: string)
    requires Cauda(d, fim, fimLen, cortado)
    ensures Cauda(d + [l], fim + [l], fimLen + |l| + 1, cortado)
  {
    Snoc(fim, l);
    Snoc(d, l);
  }

  lemma DropFirst(d: seq<string>, fim: seq<string>, fimLen: int, cortado: int)
    requires Cauda(d, fim, fimLen, cortado) && fim != []
    ensures Cauda(d, fim[1..], fimLen - |fim[0]| - 1, cortado + |fim[0]| + 1)
  {
    BytesAppend([fim[0]], fim[1..]);
    assert fim == [fim[0]] + fim[1..];
    assert [fim[0]][..0] == [];
  }

  lemma CutIsWhatIsMissing(d: seq<string>, fim: seq<string>, fimLen: int, cortado: int)
    requires Cauda(d, fim, fimLen, cortado)
    ensures cortado >= 0 && (cortado == 0 <==> fim == d)
  {
    var k := |d| - |fim|;
    assert d == d[..k] + fim;
    BytesAppend(d[..k], fim);
    BytesMonotone(d, 0, k);
  }

  /** The window of what was written: the head, and the last diverted lines. */
  ghost predicate JanelaDe(escritas: seq<string>, inicio: string, fim: seq<string>, fimLen: int, cortado: int) {
    && inicio == Texto(Cabeca(escritas))
    && Cauda(Desviadas(escritas), fim, fimLen, cortado)
    && (Desviadas(escritas) != [] ==> fim != [])
    && NadaAMais(Desviadas(escritas), fim)
  }

  /** No line was dropped that still has room: with one more, the tail is over its share. */
  ghost predicate NadaAMais(d: seq<string>, fim: seq<string>) {
    forall k: nat {:trigger BytesDe(d, k)} :: k < |d| - |fim| ==> BytesDe(d, k) > TETO - FATIA
  }

  /** The bytes of the lines from the `k`-th on. */
  function BytesDe(d: seq<string>, k: nat): nat
    decreases |d| - k
  {
    if k >= |d| then 0 else |d[k]| + 1 + BytesDe(d, k + 1)
  }

  lemma {:induction false} BytesDeIs(d: seq<string>, k: nat)
    requires k <= |d|
    ensures BytesDe(d, k) == Bytes(d[k..])
    decreases |d| - k
  {
    if k < |d| {
      BytesDeIs(d, k + 1);
      assert d[k..] == [d[k]] + d[k + 1..];
      BytesAppend([d[k]], d[k + 1..]);
      assert [d[k]][..0] == [];
    }
  }

  lemma {:induction false} BytesDeSnoc(d: seq<string>, l: string, k: nat)
    requires k <= |d|
    ensures BytesDe(d + [l], k) == BytesDe(d, k) + |l| + 1
    decreases |d| - k
  {
    if k < |d| { BytesDeSnoc(d, l, k + 1); }
  }

  lemma OverStaysOver(d: seq<string>, fim: seq<string>, l: string)
    requires |fim| <= |d| && NadaAMais(d, fim)
    ensures NadaAMais(d + [l], fim + [l])
  {
    forall k: nat | k < |d| - |fim| ensures BytesDe(d + [l], k) > TETO - FATIA { BytesDeSnoc(d, l, k); }
  }

  lemma WriteToHead(escritas: seq<string>, inicio: string, fim: seq<string>, fimLen: int, cortado: int, l: string)
    requires JanelaDe(escritas, inicio, fim, fimLen, cortado) && |inicio| + |l| + 1 <= FATIA
    ensures JanelaDe(escritas + [l], inicio + l + "\n", fim, fimLen, cortado)
  {
    BytesIsLength(Cabeca(escritas));
    HeadSnoc(escritas, l);
    Snoc(Cabeca(escritas), l);
  }

  lemma WriteToTail(escritas: seq<string>, inicio: string, fim: seq<string>, fimLen: int, cortado: int, l: string)
    requires JanelaDe(escritas, inicio, fim, fimLen, cortado) && |inicio| + |l| + 1 > FATIA
    ensures JanelaDe(escritas + [l], inicio, fim + [l], fimLen + |l| + 1, cortado)
  {
    BytesIsLength(Cabeca(escritas));
    DivertedSnoc(escritas, l, Cabeca(escritas), Desviadas(escritas));
    AddLast(Desviadas(escritas), fim, fimLen, cortado, l);
    OverStaysOver(Desviadas(escritas), fim, l);
  }

  lemma TrimTail(escritas: seq<string>, inicio: string, fim: seq<string>, fimLen: int, cortado: int)
    requires JanelaDe(escritas, inicio, fim, fimLen, cortado) && |fim| > 1 && fimLen > TETO - FATIA
    ensures JanelaDe(escritas, inicio, fim[1..], fimLen - |fim[0]| - 1, cortado + |fim[0]| + 1)
  {
    DropFirst(Desviadas(escritas), fim, fimLen, cortado);
    TailWasOver(Desviadas(escritas), fim);
  }

  lemma TailWasOver(d: seq<string>, fim: seq<string>)
    requires 0 < |fim| <= |d| && fim == d[|d| - |fim|..] && Bytes(fim) > TETO - FATIA && NadaAMais(d, fim)
    ensures NadaAMais(d, fim[1..])
  {
    BytesDeIs(d, |d| - |fim|);
  }

  /** What String returns. */
  lemma WhatIsShown(escritas: seq<string>, inicio: string, fim: seq<string>, fimLen: int, cortado: int)
    requires JanelaDe(escritas, inicio, fim, fimLen, cortado)
    ensures cortado == 0 ==> inicio + Linhas(fim) == Texto(Cabeca(escritas)) + Texto(Desviadas(escritas))
    ensures cortado == 0 && NinguemVolta(escritas) ==> inicio + Linhas(fim) == Texto(escritas)
    ensures inicio + Marca(cortado) + Linhas(fim) == Texto(Cabeca(escritas)) + Marca(cortado) + Texto(fim)
  {
    LinhasIsTexto(fim);
    CutIsWhatIsMissing(Desviadas(escritas), fim, fimLen, cortado);
    TextoAppend(Cabeca(escritas), Desviadas(escritas));
    InOrderIff(escritas);
  }

  lemma NothingWritten()
    ensures JanelaDe([], "", [], 0, 0)
  {
    assert Cabeca([]) == [] && Desviadas([]) == [] && Texto([]) == "" && Bytes([]) == 0;
    assert Cauda([], [], 0, 0);
    assert NadaAMais([], []);
  }

  class Janela {
    var inicio: string
    var fim: seq<string>
    var fimLen: int
    var cortado: int
    ghost var escritas: seq<string>

    ghost predicate Valid()
      reads this
    {
      JanelaDe(escritas, inicio, fim, fimLen, cortado) && (fimLen <= TETO - FATIA || |fim| == 1)
    }

    constructor ()
      ensures Valid() && escritas == []
    {
      NothingWritten();
      inicio, fim, fimLen, cortado, escritas := "", [], 0, 0, [];
    }

    method Escrever(linha: string)
      requires Valid()
      modifies this
      ensures Valid() && escritas == old(escritas) + [linha]
    {
      if |inicio| + (|linha| + 1) <= FATIA {
        NoInicio(linha);
      } else {
        NoFim(linha);
        Aparar();
      }
    }

    method NoInicio(linha: string)
      requires Valid() && |inicio| + (|linha| + 1) <= FATIA
      modifies this`inicio, this`escritas
      ensures Valid() && escritas == old(escritas) + [linha]
    {
      WriteToHead(escritas, inicio, fim, fimLen, cortado, linha);
      inicio := inicio + linha + "\n";
      escritas := escritas + [linha];
    }

    method NoFim(linha: string)
      requires Valid() && |inicio| + (|linha| + 1) > FATIA
      modifies this`fim, this`fimLen, this`escritas
      ensures JanelaDe(escritas, inicio, fim, fimLen, cortado) && fim != [] && escritas == old(escritas) + [linha]
    {
      WriteToTail(escritas, inicio, fim, fimLen, cortado, linha);
      fim := fim + [linha];
      fimLen := fimLen + (|linha| + 1);
      escritas := escritas + [linha];
    }

    /** Drops lines from the front until the tail is back within its share. */
    method Aparar()
      requires JanelaDe(escritas, inicio, fim, fimLen, cortado) && fim != []
      modifies this`fim, this`fimLen, this`cortado
      ensures Valid()
    {
      while fimLen > TETO - FATIA && |fim| > 1
        invariant JanelaDe(escritas, inicio, fim, fimLen, cortado) && fim != []
        decreases |fim|
      {
        TrimTail(escritas, inicio, fim, fimLen, cortado);
        cortado := cortado + |fim[0]| + 1;
        fimLen := fimLen - (|fim[0]| + 1);
        fim := fim[1..];
      }
    }

    method String() returns (r: string)
      requires Valid()
      ensures cortado == 0 ==> r == Texto(Cabeca(escritas)) + Texto(Desviadas(escritas))
      ensures cortado == 0 && NinguemVolta(escritas) ==> r == Texto(escritas)
      ensures cortado > 0 ==> r == Texto(Cabeca(escritas)) + Marca(cortado) + Texto(fim)
    {
      WhatIsShown(escritas, inicio, fim, fimLen, cortado);
      if cortado == 0 { return inicio + Linhas(fim); }
      r := inicio + Marca(cortado) + Linhas(fim);
    }
  }

  function Marca(cortado: int): string {
    "\n[... " + EmKB(cortado) + " omitidos pelo limite de " + EmKB(TETO) + " por passo ...]\n\n"
  }

  /** Accounting: head, tail and the discarded middle add up to what was written; the head
      keeps to its quarter and the tail to its share, unless it is a single line; head and
      diverted lines are the written lines dealt in two. The tail ends the diverted, and no
      more of them was dropped than had to be. */
  lemma Accounting(j: Janela)
    requires j.Valid()
    ensures |j.inicio| + j.fimLen + j.cortado == Bytes(j.escritas)
    ensures |j.inicio| <= FATIA && (j.fimLen <= TETO - FATIA || |j.fim| == 1) && j.cortado >= 0
    ensures Repartidas(j.escritas, Cabeca(j.escritas), Desviadas(j.escritas))
    ensures Desviadas(j.escritas) != [] ==> j.fim != []
    ensures |j.fim| <= |Desviadas(j.escritas)| && j.fim == Desviadas(j.escritas)[|Desviadas(j.escritas)| - |j.fim|..]
    ensures forall k :: 0 <= k < |Desviadas(j.escritas)| - |j.fim| ==> Bytes(Desviadas(j.escritas)[k..]) > 98304
  {
    HeadFits(j.escritas);
    BytesIsLength(Cabeca(j.escritas));
    LinesAreDealt(j.escritas);
    CutIsWhatIsMissing(Desviadas(j.escritas), j.fim, j.fimLen, j.cortado);
    forall k | 0 <= k < |Desviadas(j.escritas)| - |j.fim| ensures Bytes(Desviadas(j.escritas)[k..]) > 98304 {
      BytesDeIs(Desviadas(j.escritas), k);
    }
  }

  /** The window can show lines out of order: a line that does not fit, then one that does. */
  lemma ShortLineJumpsAhead(longa: string, curta: string)
    requires |longa| >= FATIA && |curta| < FATIA
    ensures Cabeca([longa, curta]) == [curta] && Desviadas([longa, curta]) == [longa]
    ensures !NinguemVolta([longa, curta])
  {
    var ls := [longa, curta];
    HeadSnoc([], longa);
    HeadSnoc([longa], curta);
    assert [] + [longa] == [longa] && [longa] + [curta] == ls;
    InOrderIff(ls);
    assert (Cabeca(ls) + Desviadas(ls))[0] == curta;
  }
}
