/** Keys in the order of sort.Strings, and why a set of keys has one such order. */
module KeyOrder {

  /** sort.Strings: byte by byte. */
  predicate Antes(a: string, b: string) {
    b != "" && (a == "" || a[0] < b[0] || (a[0] == b[0] && Antes(a[1..], b[1..])))
  }

  /** One text is before another when it is cut short of it, or has the smaller character at
      the first place where they differ. */
  lemma {:induction false} AntesIff(a: string, b: string)
    ensures Antes(a, b) <==> exists k :: PrimeiraDiferenca(a, b, k)
  {
    if a != "" && b != "" && a[0] == b[0] {
      AntesIff(a[1..], b[1..]);
      if k :| PrimeiraDiferenca(a[1..], b[1..], k) {
        assert a[..k + 1] == [a[0]] + a[1..][..k] && b[..k + 1] == [b[0]] + b[1..][..k];
        assert PrimeiraDiferenca(a, b, k + 1);
      }
      if k :| PrimeiraDiferenca(a, b, k) {
        assert k > 0;
        assert a[1..][..k - 1] == a[..k][1..] == b[..k][1..] == b[1..][..k - 1];
        assert PrimeiraDiferenca(a[1..], b[1..], k - 1);
      }
    } else {
      if Antes(a, b) { assert PrimeiraDiferenca(a, b, 0); }
      if k :| PrimeiraDiferenca(a, b, k) { AgreeFromTheStart(a, b, k); }
    }
  }

  lemma AgreeFromTheStart(a: string, b: string, k: nat)
    requires k <= |a| && k <= |b| && a[..k] == b[..k]
    ensures k > 0 ==> a[0] == b[0]
  {
    if k > 0 { assert a[..k][0] == a[0] && b[..k][0] == b[0]; }
  }

  /** `a` and `b` agree up to `k`; there `a` ends, or has the smaller character. */
  predicate PrimeiraDiferenca(a: string, b: string, k: int) {
    0 <= k <= |a| && k < |b| && a[..k] == b[..k] && (k < |a| ==> a[k] < b[k])
  }

  lemma {:induction false} AntesTotal(a: string, b: string)
    ensures !Antes(a, a)
    ensures Antes(a, b) ==> !Antes(b, a)
    ensures a != b ==> Antes(a, b) || Antes(b, a)
  {
    if a != "" {
      AntesTotal(a[1..], a[1..]);
      if b != "" {
        AntesTotal(a[1..], b[1..]);
        assert a[0] == b[0] && a[1..] == b[1..] ==> a == [a[0]] + a[1..] == b;
      }
    }
  }

  lemma {:induction false} AntesTrans(a: string, b: string, c: string)
    requires Antes(a, b) && Antes(b, c)
    ensures Antes(a, c)
  {
    if a != "" && a[0] == b[0] && b[0] == c[0] { AntesTrans(a[1..], b[1..], c[1..]); }
  }

  predicate Crescente(ks: seq<string>) {
    forall i, j :: 0 <= i < j < |ks| ==> Antes(ks[i], ks[j])
  }

  function Chaves(ks: seq<string>): set<string> {
    set i | 0 <= i < |ks| :: ks[i]
  }

  /** A set of keys has one ascending list only. */
  lemma {:induction false} AscendingIsUnique(a: seq<string>, b: seq<string>)
    requires Crescente(a) && Crescente(b) && Chaves(a) == Chaves(b)
    ensures a == b
  {
    if a == [] {
      HasKeys(b);
    } else {
      assert a[0] in Chaves(a);
      HasKeys(b);
      AntesTotal(a[0], b[0]);
      assert a[0] == b[0];
      forall k ensures k in Chaves(a[1..]) <==> k in Chaves(b[1..]) {
        TailKeys(a, k);
        TailKeys(b, k);
      }
      AscendingIsUnique(a[1..], b[1..]);
    }
  }

  lemma HasKeys(a: seq<string>)
    ensures a == [] <==> Chaves(a) == {}
    ensures a != [] ==> a[0] in Chaves(a)
  {
    if a != [] { assert a[0] in Chaves(a); }
  }

  lemma TailKeys(a: seq<string>, k: string)
    requires Crescente(a) && a != []
    ensures k in Chaves(a[1..]) <==> k in Chaves(a) && k != a[0]
  {
    AntesTotal(a[0], a[0]);
    if k in Chaves(a[1..]) {
      var i :| 0 <= i < |a[1..]| && a[1..][i] == k;
      assert a[i + 1] == k;
    }
    if k in Chaves(a) && k != a[0] {
      var i :| 0 <= i < |a| && a[i] == k;
      assert a[1..][i - 1] == k;
    }
  }

  function Insere(k: string, ks: seq<string>): seq<string> {
    if ks == [] || Antes(k, ks[0]) then [k] + ks else [ks[0]] + Insere(k, ks[1..])
  }

  /** Stands for sort.Strings. */
  function Ordena(ks: seq<string>): seq<string> {
    if ks == [] then [] else Insere(ks[0], Ordena(ks[1..]))
  }

  lemma {:induction false} InsereKeepsAscending(k: string, ks: seq<string>)
    requires Crescente(ks) && k !in Chaves(ks)
    ensures Crescente(Insere(k, ks))
    ensures Chaves(Insere(k, ks)) == Chaves(ks) + {k}
  {
    var r := Insere(k, ks);
    if ks == [] || Antes(k, ks[0]) {
      forall j | 0 <= j < |ks| ensures Antes(k, ks[j]) {
        if j > 0 { AntesTrans(k, ks[0], ks[j]); }
      }
      assert forall j :: 0 < j < |r| ==> r[j] == ks[j - 1];
      ConsKeys(k, ks);
    } else {
      assert ks[0] in Chaves(ks);
      AntesTotal(k, ks[0]);
      TailKeys(ks, k);
      InsereKeepsAscending(k, ks[1..]);
      var t := Insere(k, ks[1..]);
      forall j | 0 <= j < |t| ensures Antes(ks[0], t[j]) {
        assert t[j] in Chaves(t);
        if t[j] != k {
          var i :| 0 <= i < |ks[1..]| && ks[1..][i] == t[j];
          assert ks[i + 1] == t[j];
        }
      }
      assert forall j :: 0 < j < |r| ==> r[j] == t[j - 1];
      ConsKeys(ks[0], t);
      ConsKeys(ks[0], ks[1..]);
      assert ks == [ks[0]] + ks[1..];
    }
  }

  lemma ConsKeys(k: string, ks: seq<string>)
    ensures Chaves([k] + ks) == {k} + Chaves(ks)
  {
    var r := [k] + ks;
    forall x ensures x in Chaves(r) <==> x == k || x in Chaves(ks) {
      if x in Chaves(ks) {
        var i :| 0 <= i < |ks| && ks[i] == x;
        assert r[i + 1] == x;
      }
      if x == k { assert r[0] == x; }
    }
  }

  lemma SnocKeys(ks: seq<string>, k: string)
    ensures Chaves(ks + [k]) == Chaves(ks) + {k}
  {
    var r := ks + [k];
    forall x ensures x in Chaves(r) <==> x == k || x in Chaves(ks) {
      if x in Chaves(ks) {
        var i :| 0 <= i < |ks| && ks[i] == x;
        assert r[i] == x;
      }
      if x == k { assert r[|ks|] == x; }
    }
  }

  predicate SemRepetir(ks: seq<string>) {
    forall i, j :: 0 <= i < j < |ks| ==> ks[i] != ks[j]
  }

  lemma {:induction false} OrdenaAscends(ks: seq<string>)
    requires SemRepetir(ks)
    ensures Crescente(Ordena(ks)) && Chaves(Ordena(ks)) == Chaves(ks)
  {
    if ks != [] {
      OrdenaAscends(ks[1..]);
      ConsKeys(ks[0], ks[1..]);
      assert ks == [ks[0]] + ks[1..];
      InsereKeepsAscending(ks[0], Ordena(ks[1..]));
    }
  }

  lemma {:induction false} AscendingExists(ks: set<string>)
    ensures exists r :: Crescente(r) && Chaves(r) == ks
  {
    if ks == {} {
      assert Crescente([]) && Chaves([]) == ks;
    } else {
      var k :| k in ks;
      AscendingExists(ks - {k});
      var r :| Crescente(r) && Chaves(r) == ks - {k};
      InsereKeepsAscending(k, r);
      assert Chaves(Insere(k, r)) == ks;
    }
  }

  /** The keys of an object in the order they are written. */
  ghost function Ordenadas(ks: set<string>): (r: seq<string>)
    ensures Crescente(r) && Chaves(r) == ks
  {
    AscendingExists(ks);
    var r :| Crescente(r) && Chaves(r) == ks;
    r
  }
}
