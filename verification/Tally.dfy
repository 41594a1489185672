/** Lists of (product, amount) entries and how much of each product they name:
    request lines, stored items and narrowed quantities are all such lists. */
module Tally {

  /** A product UUID, as the number its sixteen big-endian bytes spell. */
  type ProductId = nat

  datatype Entry = Entry(product: ProductId, amount: int)

  function Products(es: seq<Entry>): set<ProductId> {
    set e | e in es :: e.product
  }

  /** The summed amount of one product. */
  function Total(es: seq<Entry>, p: ProductId): int {
    if es == [] then 0
    else Total(es[..|es| - 1], p) + Share(es[|es| - 1], p)
  }

  function Share(e: Entry, p: ProductId): int {
    if e.product == p then e.amount else 0
  }

  ghost predicate AllPositive(es: seq<Entry>) {
    forall i :: 0 <= i < |es| ==> 0 < es[i].amount
  }

  lemma TotalSnoc(es: seq<Entry>, e: Entry, p: ProductId)
    ensures Total(es + [e], p) == Total(es, p) + Share(e, p)
    ensures Products(es + [e]) == Products(es) + {e.product}
  {
    assert (es + [e])[..|es|] == es;
    forall q ensures q in Products(es + [e]) <==> q in Products(es) + {e.product} {
      if q in Products(es) {
        var x :| x in es && x.product == q;
        assert x in es + [e];
      }
      assert e in es + [e];
    }
  }

  /** One more entry of a prefix. */
  lemma TotalPrefix(es: seq<Entry>, i: nat, p: ProductId)
    requires i < |es|
    ensures Total(es[..i + 1], p) == Total(es[..i], p) + Share(es[i], p)
    ensures Products(es[..i + 1]) == Products(es[..i]) + {es[i].product}
  {
    assert es[..i + 1] == es[..i] + [es[i]];
    TotalSnoc(es[..i], es[i], p);
  }

  lemma {:induction false} TotalConcat(a: seq<Entry>, b: seq<Entry>, p: ProductId)
    ensures Total(a + b, p) == Total(a, p) + Total(b, p)
  {
    if b == [] {
      assert a + b == a;
    } else {
      var c := b[..|b| - 1];
      TotalConcat(a, c, p);
      assert a + b == (a + c) + [b[|b| - 1]];
      TotalSnoc(a + c, b[|b| - 1], p);
      assert (a + b)[..|a + b| - 1] == a + c;
    }
  }

  /** Amounts of a product that no entry names add up to nothing. */
  lemma {:induction false} TotalAbsent(es: seq<Entry>, p: ProductId)
    requires p !in Products(es)
    ensures Total(es, p) == 0
  {
    if es != [] {
      var c := es[..|es| - 1];
      assert es == c + [es[|es| - 1]];
      TotalSnoc(c, es[|es| - 1], p);
      TotalAbsent(c, p);
    }
  }

  /** With positive amounts, prefixes name no more than the whole list. */
  lemma {:induction false} TotalMonotone(es: seq<Entry>, i: nat, j: nat, p: ProductId)
    requires i <= j <= |es|
    requires AllPositive(es)
    ensures Total(es[..i], p) <= Total(es[..j], p)
    decreases j
  {
    if i < j {
      TotalMonotone(es, i, j - 1, p);
      TotalPrefix(es, j - 1, p);
    }
  }

  /** A product named by a positive entry has a positive total. */
  lemma TotalNonNegative(es: seq<Entry>, p: ProductId)
    requires AllPositive(es)
    ensures 0 <= Total(es, p)
    ensures p in Products(es) ==> 0 < Total(es, p)
  {
    assert es[..0] == [] && es[..|es|] == es;
    TotalMonotone(es, 0, |es|, p);
    if p in Products(es) {
      var e :| e in es && e.product == p;
      var i :| 0 <= i < |es| && es[i] == e;
      TotalMonotone(es, 0, i, p);
      TotalPrefix(es, i, p);
      TotalMonotone(es, i + 1, |es|, p);
    }
  }

  /** Totals depend on which entries there are, not on their order. */
  lemma {:induction false} TotalPermuted(a: seq<Entry>, b: seq<Entry>, p: ProductId)
    requires multiset(a) == multiset(b)
    ensures Total(a, p) == Total(b, p)
    decreases |a|
  {
    hide Total;
    if a == [] {
      assert |multiset(b)| == |b|;
      assert b == [];
    } else {
      var e := a[|a| - 1];
      var c := a[..|a| - 1];
      assert a == c + [e];
      TotalSnoc(c, e, p);
      assert e in multiset(a);
      var i :| 0 <= i < |b| && b[i] == e;
      var d := b[..i] + b[i + 1..];
      assert b == b[..i] + [e] + b[i + 1..];
      assert multiset(c) == multiset(a) - multiset{e};
      assert multiset(d) == multiset(b) - multiset{e};
      TotalPermuted(c, d, p);
      TotalConcat(b[..i], b[i + 1..], p);
      TotalConcat(b[..i] + [e], b[i + 1..], p);
      TotalSnoc(b[..i], e, p);
    }
  }

  lemma ProductsPermuted(a: seq<Entry>, b: seq<Entry>)
    requires multiset(a) == multiset(b)
    ensures Products(a) == Products(b)
  {
    forall p ensures p in Products(a) <==> p in Products(b) {
      if p in Products(a) {
        var e :| e in a && e.product == p;
        assert e in multiset(b);
      }
      if p in Products(b) {
        var e :| e in b && e.product == p;
        assert e in multiset(a);
      }
    }
  }
}
