/** Byte-wise string order and the sorted listing of a set of strings. */
module SortedStrings {

  predicate Leq(a: string, b: string) {
    a == "" || (b != "" && (a[0] < b[0] || (a[0] == b[0] && Leq(a[1..], b[1..]))))
  }

  lemma {:induction false} LeqTotal(a: string, b: string)
    ensures Leq(a, b) || Leq(b, a)
  {
    if a != "" && b != "" && a[0] == b[0] { LeqTotal(a[1..], b[1..]); }
  }

  lemma {:induction false} LeqAntisymmetric(a: string, b: string)
    requires Leq(a, b) && Leq(b, a)
    ensures a == b
  {
    if a != "" && b != "" {
      LeqAntisymmetric(a[1..], b[1..]);
      assert a == [a[0]] + a[1..] && b == [b[0]] + b[1..];
    }
  }

  lemma {:induction false} LeqTransitive(a: string, b: string, c: string)
    requires Leq(a, b) && Leq(b, c)
    ensures Leq(a, c)
  {
    if a != "" && a[0] == b[0] == c[0] { LeqTransitive(a[1..], b[1..], c[1..]); }
  }

  predicate IsLeast(k: string, ks: set<string>) {
    k in ks && forall x <- ks :: Leq(k, x)
  }

  lemma {:induction false} LeastExists(ks: set<string>)
    requires ks != {}
    ensures exists k :: IsLeast(k, ks)
  {
    var x :| x in ks;
    if ks == {x} {
      LeqTotal(x, x);
      assert IsLeast(x, ks);
    } else {
      LeastExists(ks - {x});
      var y :| IsLeast(y, ks - {x});
      LeqTotal(x, y);
      LeqTotal(x, x);
      var k := if Leq(x, y) then x else y;
      forall z | z in ks ensures Leq(k, z) {
        if z != x && k == x { LeqTransitive(x, y, z); }
      }
      assert IsLeast(k, ks);
    }
  }

  lemma LeastUnique(ks: set<string>)
    ensures forall a, b :: IsLeast(a, ks) && IsLeast(b, ks) ==> a == b
  {
    forall a, b | IsLeast(a, ks) && IsLeast(b, ks) ensures a == b {
      LeqAntisymmetric(a, b);
    }
  }

  function Least(ks: set<string>): (k: string)
    requires ks != {}
    ensures IsLeast(k, ks)
  {
    LeastExists(ks);
    LeastUnique(ks);
    var k :| k in ks && IsLeast(k, ks);
    k
  }

  // The keys in ascending byte order, as sort.Strings leaves them.
  function SortedKeys(ks: set<string>): (r: seq<string>)
    ensures |r| == |ks| && forall k :: k in r <==> k in ks
    ensures forall i, j :: 0 <= i < j < |r| ==> r[i] != r[j] && Leq(r[i], r[j])
  {
    if ks == {} then [] else [Least(ks)] + SortedKeys(ks - {Least(ks)})
  }

  // A sorted listing is unique.
  lemma {:induction false} SortedKeysUnique(ks: set<string>, r: seq<string>)
    requires forall k :: k in r <==> k in ks
    requires forall i, j :: 0 <= i < j < |r| ==> r[i] != r[j] && Leq(r[i], r[j])
    ensures r == SortedKeys(ks)
  {
    if r == [] {
      assert ks == {};
    } else {
      LeqTotal(r[0], r[0]);
      assert r[0] in r;
      assert IsLeast(r[0], ks) by {
        forall x | x in ks ensures Leq(r[0], x) {
          assert x in r;
        }
      }
      LeastUnique(ks);
      var rest := r[1..];
      assert r == [r[0]] + rest;
      SortedKeysUnique(ks - {r[0]}, rest);
    }
  }

  /// What the order is

  // a comes before b: it is a proper prefix of b, or the first byte in which
  // they differ is smaller.
  ghost predicate Before(a: string, b: string) {
    a < b || exists i :: 0 <= i < |a| && i < |b| && a[..i] == b[..i] && a[i] < b[i]
  }

  lemma {:induction false} LeqExact(a: string, b: string)
    ensures Leq(a, b) <==> a == b || Before(a, b)
  {
    if a != "" && b != "" && a[0] == b[0] {
      LeqExact(a[1..], b[1..]);
      BeforeTail(a, b);
      assert a == [a[0]] + a[1..] && b == [b[0]] + b[1..];
    } else if a != "" && b != "" {
      FirstDecides(a, b);
    }
  }

  // A common first byte decides nothing.
  lemma BeforeTail(a: string, b: string)
    requires a != "" && b != "" && a[0] == b[0]
    ensures Before(a, b) <==> Before(a[1..], b[1..])
  {
    var c, d := a[1..], b[1..];
    assert a == [a[0]] + c && b == [b[0]] + d;
    assert a < b <==> c < d;
    forall i | 0 <= i < |c| && i < |d|
      ensures a[..i + 1] == b[..i + 1] <==> c[..i] == d[..i]
      ensures a[i + 1] == c[i] && b[i + 1] == d[i]
    {
      assert a[..i + 1] == [a[0]] + c[..i] && b[..i + 1] == [b[0]] + d[..i];
      assert c[..i] == a[..i + 1][1..] && d[..i] == b[..i + 1][1..];
    }
    if i :| 0 <= i < |a| && i < |b| && a[..i] == b[..i] && a[i] < b[i] {
      assert c[..i - 1] == d[..i - 1] && c[i - 1] < d[i - 1];
    }
    if i :| 0 <= i < |c| && i < |d| && c[..i] == d[..i] && c[i] < d[i] {
      assert a[..i + 1] == b[..i + 1] && a[i + 1] < b[i + 1];
    }
  }

  lemma FirstDecides(a: string, b: string)
    requires a != "" && b != "" && a[0] != b[0]
    ensures Before(a, b) <==> a[0] < b[0]
  {
    if a[0] < b[0] {
      assert a[..0] == b[..0];
    }
    forall i | 0 < i <= |a| && i <= |b| ensures a[..i] != b[..i] {
      assert a[..i][0] == a[0] && b[..i][0] == b[0];
    }
    assert |a| <= |b| ==> a[..|a|] == a;
  }

  // Exactly the keys, each before those behind it.
  ghost predicate InOrder(listing: seq<string>, keys: set<string>) {
    && (forall k :: k in listing <==> k in keys)
    && forall i, j :: 0 <= i < j < |listing| ==> Before(listing[i], listing[j])
  }

  lemma SortedKeysInOrder(keys: set<string>)
    ensures InOrder(SortedKeys(keys), keys)
  {
    hide Before, Leq;
    var r := SortedKeys(keys);
    forall i, j | 0 <= i < j < |r| ensures Before(r[i], r[j]) {
      LeqExact(r[i], r[j]);
    }
  }

  // There is no other such listing.
  lemma InOrderUnique(listing: seq<string>, keys: set<string>)
    requires InOrder(listing, keys)
    ensures listing == SortedKeys(keys)
  {
    hide Before, Leq, SortedKeys;
    forall i, j | 0 <= i < j < |listing| ensures listing[i] != listing[j] && Leq(listing[i], listing[j]) {
      LeqExact(listing[i], listing[j]);
      NeverBeforeItself(listing[i]);
    }
    SortedKeysUnique(keys, listing);
  }

  lemma NeverBeforeItself(a: string)
    ensures !Before(a, a)
  {
  }
}
