/** The deterministic lock order: distinct product ids, ascending. */
module Ordering {
  import opened Tally

  // ---- Byte order of UUIDs ----

  type byte = x: int | 0 <= x < 256

  /** `bytes.Compare` of two UUIDs: the first differing byte decides. */
  function Compare(a: seq<byte>, b: seq<byte>): (r: int)
    requires |a| == |b|
  {
    if a == [] then 0
    else if a[0] < b[0] then -1
    else if a[0] > b[0] then 1
    else Compare(a[1..], b[1..])
  }

  /** The number that big-endian bytes spell. */
  function Number(a: seq<byte>): nat {
    if a == [] then 0 else Number(a[..|a| - 1]) * 256 + a[|a| - 1]
  }

  function Pow256(n: nat): (r: nat)
    ensures r > 0
  {
    if n == 0 then 1 else 256 * Pow256(n - 1)
  }

  lemma {:induction false} NumberCons(a: seq<byte>)
    requires a != []
    ensures Number(a) == a[0] * Pow256(|a| - 1) + Number(a[1..])
    ensures Number(a[1..]) < Pow256(|a| - 1)
  {
    if |a| == 1 {
      assert a[..0] == [] && a[1..] == [];
      assert Number(a[..0]) == 0;
    } else {
      var c := a[..|a| - 1];
      NumberCons(c);
      assert a[1..][..|a| - 2] == c[1..];
      ShiftDigit(a[0], Pow256(|a| - 2), Number(c[1..]), a[|a| - 1]);
    }
  }

  /** One more digit behind `x * w + low`. */
  lemma ShiftDigit(x: nat, w: nat, low: nat, digit: byte)
    requires low < w
    ensures (x * w + low) * 256 + digit == x * (256 * w) + (low * 256 + digit)
    ensures low * 256 + digit < 256 * w
  {
  }

  /** Comparing UUIDs byte by byte orders them as numbers, so numbers may stand
      for UUIDs wherever only their order and equality matter. */
  lemma {:induction false} BytesCompareAsNumbers(a: seq<byte>, b: seq<byte>)
    requires |a| == |b|
    ensures Compare(a, b) < 0 <==> Number(a) < Number(b)
    ensures Compare(a, b) == 0 <==> a == b
    ensures Compare(a, b) == 0 <==> Number(a) == Number(b)
  {
    if a != [] {
      NumberCons(a);
      NumberCons(b);
      var w := Pow256(|a| - 1);
      if a[0] == b[0] {
        BytesCompareAsNumbers(a[1..], b[1..]);
        assert a == [a[0]] + a[1..] && b == [b[0]] + b[1..];
      } else if a[0] < b[0] {
        LeadingDigit(a[0], b[0], w, Number(a[1..]), Number(b[1..]));
      } else {
        LeadingDigit(b[0], a[0], w, Number(b[1..]), Number(a[1..]));
      }
    }
  }

  lemma LeadingDigit(x: nat, y: nat, w: nat, low: nat, high: nat)
    requires x < y && low < w
    ensures x * w + low < y * w + high
  {
    assert (x + 1) * w <= y * w;
  }

  // ---- Ascending enumerations ----

  ghost predicate Ascending(ids: seq<ProductId>) {
    forall i, j :: 0 <= i < j < |ids| ==> ids[i] < ids[j]
  }

  ghost predicate Enumerates(ids: seq<ProductId>, s: set<ProductId>) {
    && (forall i :: 0 <= i < |ids| ==> ids[i] in s)
    && (forall p :: p in s ==> p in ids)
  }

  lemma AscendingSnoc(ids: seq<ProductId>, p: ProductId)
    requires Ascending(ids)
    requires forall q :: q in ids ==> q < p
    ensures Ascending(ids + [p])
  {
    forall i | 0 <= i < |ids| ensures ids[i] < p { assert ids[i] in ids; }
  }

  function Insert(ids: seq<ProductId>, p: ProductId): (r: seq<ProductId>)
    requires Ascending(ids)
    ensures Ascending(r)
    ensures forall q :: q in r <==> q in ids || q == p
  {
    if ids == [] then [p]
    else if ids[|ids| - 1] < p then ids + [p]
    else if ids[|ids| - 1] == p then ids
    else
      var front := ids[..|ids| - 1];
      var last := ids[|ids| - 1];
      assert ids == front + [last];
      var r' := Insert(front, p);
      AscendingSnoc(r', last);
      r' + [last]
  }

  lemma ProductsSnoc(es: seq<Entry>)
    requires es != []
    ensures Products(es) == Products(es[..|es| - 1]) + {es[|es| - 1].product}
  {
    assert es == es[..|es| - 1] + [es[|es| - 1]];
    TotalSnoc(es[..|es| - 1], es[|es| - 1], 0);
  }

  /** The distinct products of a list, ascending: the order in which their rows
      are locked. */
  function LockOrder(es: seq<Entry>): (ids: seq<ProductId>)
    ensures Ascending(ids)
    ensures Enumerates(ids, Products(es))
  {
    if es == [] then []
    else
      var c := es[..|es| - 1];
      ProductsSnoc(es);
      var ids := Insert(LockOrder(c), es[|es| - 1].product);
      assert forall i :: 0 <= i < |ids| ==> ids[i] in ids && ids[i] in Products(es);
      ids
  }

  /** A set has only one ascending enumeration, so the order in which Go walks a
      map cannot be observed in the sorted result. */
  lemma {:induction false} OneEnumeration(a: seq<ProductId>, b: seq<ProductId>, s: set<ProductId>)
    requires Ascending(a) && Ascending(b)
    requires Enumerates(a, s) && Enumerates(b, s)
    ensures a == b
    decreases |a|
  {
    if a == [] || b == [] {
      EmptyEnumeration(a, s);
      EmptyEnumeration(b, s);
    } else {
      var m, n := a[|a| - 1], b[|b| - 1];
      assert m in b && n in a;
      assert m == n;
      var t := s - {m};
      assert Enumerates(a[..|a| - 1], t) by { Shorten(a, s); }
      assert Enumerates(b[..|b| - 1], t) by { Shorten(b, s); }
      OneEnumeration(a[..|a| - 1], b[..|b| - 1], t);
      assert a == a[..|a| - 1] + [m] && b == b[..|b| - 1] + [n];
    }
  }

  lemma EmptyEnumeration(a: seq<ProductId>, s: set<ProductId>)
    requires Enumerates(a, s)
    ensures a == [] <==> s == {}
  {
    if a != [] { assert a[0] in s; }
    if s != {} {
      var p :| p in s;
      assert p in a;
    }
  }

  lemma Shorten(a: seq<ProductId>, s: set<ProductId>)
    requires a != [] && Ascending(a) && Enumerates(a, s)
    ensures Enumerates(a[..|a| - 1], s - {a[|a| - 1]})
  {
    var t := s - {a[|a| - 1]};
    forall p | p in t ensures p in a[..|a| - 1] {
      var i :| 0 <= i < |a| && a[i] == p;
      assert a[..|a| - 1][i] == p;
    }
  }

  /** Permuting a list leaves its lock order alone. */
  lemma LockOrderPermuted(a: seq<Entry>, b: seq<Entry>)
    requires multiset(a) == multiset(b)
    ensures LockOrder(a) == LockOrder(b)
  {
    ProductsPermuted(a, b);
    OneEnumeration(LockOrder(a), LockOrder(b), Products(a));
  }
}
