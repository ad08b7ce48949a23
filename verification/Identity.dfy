/** Identity strings: keys joined with a separator, and when they can be told apart.
    (sdk/mapping.go, sdk/ingestion.go, and the scheduler's idempotency key.) */
module Identity {

  const SEP := '|'

  /** strings.Join. */
  function Join(parts: seq<string>, sep: char): string {
    if parts == [] then ""
    else if |parts| == 1 then parts[0]
    else parts[0] + [sep] + Join(parts[1..], sep)
  }

  /** The texts with the separator between each two of them. */
  lemma JoinIs(a: string, resto: seq<string>, sep: char)
    ensures Join([], sep) == "" && Join([a], sep) == a
    ensures resto != [] ==> Join([a] + resto, sep) == a + [sep] + Join(resto, sep)
  {
    assert resto != [] ==> ([a] + resto)[1..] == resto;
  }

  predicate Livre(s: string, sep: char) {
    sep !in s
  }

  /** The first separator splits the text in one way only. */
  lemma SplitFirst(a: string, x: string, b: string, y: string, sep: char)
    requires Livre(a, sep) && Livre(b, sep) && a + [sep] + x == b + [sep] + y
    ensures a == b && x == y
  {
    var s := a + [sep] + x;
    assert s[|a|] == sep && s[|b|] == sep;
    assert forall i :: 0 <= i < |a| ==> s[i] == a[i] && a[i] in a;
    assert forall i :: 0 <= i < |b| ==> s[i] == b[i] && b[i] in b;
    assert |a| == |b|;
    assert a == s[..|a|] && b == s[..|b|];
    assert x == s[|a| + 1..] && y == s[|b| + 1..];
  }

  /** So does the last one. */
  lemma SplitLast(a: string, x: string, b: string, y: string, sep: char)
    requires Livre(x, sep) && Livre(y, sep) && a + [sep] + x == b + [sep] + y
    ensures a == b && x == y
  {
    LastSeparator(a, x, b, y, sep);
    LastSeparator(b, y, a, x, sep);
    var s := a + [sep] + x;
    assert a == s[..|a|] && b == s[..|b|];
    assert x == s[|a| + 1..] && y == s[|b| + 1..];
  }

  lemma LastSeparator(a: string, x: string, b: string, y: string, sep: char)
    requires Livre(x, sep) && a + [sep] + x == b + [sep] + y
    ensures |b| <= |a|
  {
    var s := a + [sep] + x;
    assert s[|b|] == sep && |b| < |s|;
    assert forall i :: |a| < i < |s| ==> s[i] == x[i - |a| - 1] && s[i] in x;
  }

  /** Key: the texts of the named fields, in order. For a fixed list of fields it is
      injective as soon as all texts but one (the last) lack the separator. */
  lemma {:induction false} JoinIsInjective(a: seq<string>, b: seq<string>, sep: char)
    requires |a| == |b|
    requires forall i :: 0 <= i < |a| - 1 ==> Livre(a[i], sep) && Livre(b[i], sep)
    requires Join(a, sep) == Join(b, sep)
    ensures a == b
  {
    if |a| > 1 {
      SplitFirst(a[0], Join(a[1..], sep), b[0], Join(b[1..], sep), sep);
      JoinIsInjective(a[1..], b[1..], sep);
      assert a == [a[0]] + a[1..] && b == [b[0]] + b[1..];
    }
  }

  /** The exact condition, for all lists of two texts: two different pairs give one key
      exactly when the separator moves across, from inside one of the texts. */
  lemma PairsCollideIff(a: string, b: string, c: string, d: string, sep: char)
    ensures Join([a, b], sep) == Join([c, d], sep) && [a, b] != [c, d] <==>
              (exists m :: a == c + [sep] + m && d == m + [sep] + b) || (exists m :: c == a + [sep] + m && b == m + [sep] + d)
  {
    JoinPair(a, b, sep);
    JoinPair(c, d, sep);
    if a + [sep] + b == c + [sep] + d && [a, b] != [c, d] {
      PairSplit(a, b, c, d, sep);
    }
    forall m | a == c + [sep] + m && d == m + [sep] + b ensures a + [sep] + b == c + [sep] + d && [a, b] != [c, d] {
      Moved(c, m, b, sep);
      assert [a, b][0] != [c, d][0];
    }
    forall m | c == a + [sep] + m && b == m + [sep] + d ensures a + [sep] + b == c + [sep] + d && [a, b] != [c, d] {
      Moved(a, m, d, sep);
      assert [a, b][0] != [c, d][0];
    }
  }

  lemma JoinPair(a: string, b: string, sep: char)
    ensures Join([a, b], sep) == a + [sep] + b
  {
    assert [a, b][1..] == [b];
  }

  /** A separator between `x`, `m` and `y` can go with either side. */
  lemma Moved(x: string, m: string, y: string, sep: char)
    ensures (x + [sep] + m) + [sep] + y == x + [sep] + (m + [sep] + y)
    ensures x + [sep] + m != x
  {
    assert |x + [sep] + m| > |x|;
  }

  lemma PairSplit(a: string, b: string, c: string, d: string, sep: char)
    requires a + [sep] + b == c + [sep] + d && [a, b] != [c, d]
    ensures (exists m :: a == c + [sep] + m && d == m + [sep] + b) || (exists m :: c == a + [sep] + m && b == m + [sep] + d)
  {
    var s := a + [sep] + b;
    assert a == s[..|a|] && b == s[|a| + 1..];
    assert c == s[..|c|] && d == s[|c| + 1..];
    if |a| > |c| {
      var m := s[|c| + 1..|a|];
      assert s[|c|] == sep && a == s[..|a|];
      assert a == c + [sep] + m;
      assert d == s[|c| + 1..] == m + [sep] + b;
    } else if |a| < |c| {
      var m := s[|a| + 1..|c|];
      assert s[|a|] == sep && c == s[..|c|];
      assert c == a + [sep] + m;
      assert b == s[|a| + 1..] == m + [sep] + d;
    }
  }

  // ---- ingestion id ------------------------------------------------------

  /** The text that ingestion_id hashes. */
  function IdText(provider: string, entity: string, sourceKey: string, recordTs: string): string {
    Join([provider, entity, sourceKey, recordTs], SEP)
  }

  lemma HashedText(p: string, e: string, k: string, t: string)
    ensures IdText(p, e, k, t) == p + "|" + e + "|" + k + "|" + t
  {
    IdTextShape(p, e, k, t);
    assert p + [SEP] + (e + [SEP] + (k + [SEP] + t)) == p + "|" + e + "|" + k + "|" + t;
  }

  /** The four parts can be read back even when the source key, itself a composite
      key, contains the separator. */
  lemma IdTextIsInjective(p: string, e: string, k: string, t: string, p': string, e': string, k': string, t': string)
    requires Livre(p, SEP) && Livre(e, SEP) && Livre(t, SEP) && Livre(p', SEP) && Livre(e', SEP) && Livre(t', SEP)
    requires IdText(p, e, k, t) == IdText(p', e', k', t')
    ensures p == p' && e == e' && k == k' && t == t'
  {
    IdTextShape(p, e, k, t);
    IdTextShape(p', e', k', t');
    SplitFirst(p, e + [SEP] + (k + [SEP] + t), p', e' + [SEP] + (k' + [SEP] + t'), SEP);
    SplitFirst(e, k + [SEP] + t, e', k' + [SEP] + t', SEP);
    SplitLast(k, t, k', t', SEP);
  }

  lemma IdTextShape(p: string, e: string, k: string, t: string)
    ensures IdText(p, e, k, t) == p + [SEP] + (e + [SEP] + (k + [SEP] + t))
  {
    assert [p, e, k, t][1..] == [e, k, t] && [e, k, t][1..] == [k, t] && [k, t][1..] == [t];
    assert Join([k, t], SEP) == k + [SEP] + t;
    assert Join([e, k, t], SEP) == e + [SEP] + Join([k, t], SEP);
  }

  // ---- idempotency key ---------------------------------------------------

  /** slug:trigger:slot, with the slot as RFC 3339 text in UTC. */
  function Chave(slug: string, trigger: string, slot: string): string {
    slug + [':'] + trigger + [':'] + slot
  }

  lemma KeyText(slug: string, trigger: string, slot: string)
    ensures Chave(slug, trigger, slot) == slug + ":" + trigger + ":" + slot
  {
  }

  /** A text with exactly two colons, as an RFC 3339 instant in UTC has, whatever its year. */
  ghost predicate DoisPontosDois(x: string) {
    exists h: string, m: string, t: string :: Relogio(x, h, m, t)
  }

  predicate Relogio(x: string, h: string, m: string, t: string) {
    Livre(h, ':') && Livre(m, ':') && Livre(t, ':') && x == h + [':'] + m + [':'] + t
  }

  /** Slot texts have two colons and trigger names have none, so the key determines its
      parts, read from the right, even for slugs with colons in them. */
  lemma ChaveIsInjective(s: string, t: string, x: string, s': string, t': string, x': string)
    requires DoisPontosDois(x) && DoisPontosDois(x') && Livre(t, ':') && Livre(t', ':')
    requires Chave(s, t, x) == Chave(s', t', x')
    ensures s == s' && t == t' && x == x'
  {
    var h, m, z :| Relogio(x, h, m, z);
    var h', m', z' :| Relogio(x', h', m', z');
    FourColons(s, t, h, m, z);
    FourColons(s', t', h', m', z');
    SplitLast(s + [':'] + t + [':'] + h + [':'] + m, z, s' + [':'] + t' + [':'] + h' + [':'] + m', z', ':');
    SplitLast(s + [':'] + t + [':'] + h, m, s' + [':'] + t' + [':'] + h', m', ':');
    SplitLast(s + [':'] + t, h, s' + [':'] + t', h', ':');
    SplitLast(s, t, s', t', ':');
  }

  lemma FourColons(s: string, t: string, h: string, m: string, z: string)
    ensures Chave(s, t, h + [':'] + m + [':'] + z) == s + [':'] + t + [':'] + h + [':'] + m + [':'] + z
  {
  }
}
