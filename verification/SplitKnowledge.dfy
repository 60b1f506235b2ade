/**
 * What the divisibility map knows: after a split, exactly what follows for every extent that the
 * map allowed before; after a fuse, exactly that if both extents were known, and nothing otherwise.
 */
module SplitKnowledge {
  import opened Euclid
  import opened Splits

  /** The extent is one the map allows. */
  predicate Allowed(al: Alignment, x: string, n: int) { n >= 0 && (x in al ==> al[x] > 0 && n % al[x] == 0) }

  predicate Divides(g: int, x: int) { g > 0 && x % g == 0 }

  /** The factor divides the outer extent, whatever the old extent is. */
  ghost predicate OuterMust(al: Alignment, o: string, f: int, g: int)
    requires f > 0
  {
    forall n: int {:trigger Allowed(al, o, n)} :: Allowed(al, o, n) ==> Divides(g, OuterExtent(Dim(0, n), f))
  }

  /** The factor divides the fused extent, whatever the two extents are. */
  ghost predicate FusedMust(al: Alignment, a: string, b: string, g: int) {
    forall m: int, n: int {:trigger Allowed(al, a, m), Allowed(al, b, n)} ::
      Allowed(al, a, m) && Allowed(al, b, n) ==> Divides(g, n * m)
  }

  predicate PositiveEntries(al: Alignment) { forall x :: x in al ==> al[x] > 0 }

  // ---- divisibility ----

  lemma {:induction false} Multiple(x: int, g: int) returns (k: int)
    requires Divides(g, x)
    ensures x == g * k
  {
    k := x / g;
  }

  lemma {:induction false} MultipleDivides(g: int, k: int)
    requires g > 0
    ensures Divides(g, g * k)
  {
    MulMod(g, k);
  }

  lemma {:induction false} DifferenceDivides(g: int, x: int, y: int)
    requires Divides(g, x) && Divides(g, y)
    ensures Divides(g, x - y)
  {
    var k := Multiple(x, g);
    var m := Multiple(y, g);
    assert x - y == g * (k - m);
    MultipleDivides(g, k - m);
  }

  lemma {:induction false} TransitiveDivides(g: int, k: int, x: int)
    requires Divides(g, k) && Divides(k, x)
    ensures Divides(g, x)
  {
    var p := Multiple(k, g);
    var q := Multiple(x, k);
    assert x == g * (p * q) by { assert (g * p) * q == g * (p * q); }
    MultipleDivides(g, p * q);
  }

  lemma {:induction false} BlockQuotient(f: int, q: int, r: int)
    requires f > 0 && 0 <= r < f
    ensures (f * q + r) / f == q
  {
    DivBelow(f * q + r, f, q);
    DivBelow(f * q + r, f, q - 1);
    assert f * (q + 1) == f * q + f && f * (q - 1 + 1) == f * q;
  }

  // ---- splits ----

  /** The outer extents for three multiples of d, when f does not divide d. */
  lemma {:induction false} ThreeOuterExtents(d: int, f: int)
    requires d > 0 && f > 0 && d % f != 0
    ensures OuterExtent(Dim(0, d), f) == d / f + 1
    ensures OuterExtent(Dim(0, d * (f - 1)), f) == d - d / f
    ensures OuterExtent(Dim(0, d * f), f) == d
  {
    var q, r := d / f, d % f;
    assert d == f * q + r;
    assert d - 1 + f == f * (q + 1) + (r - 1);
    BlockQuotient(f, q + 1, r - 1);
    assert d * (f - 1) - 1 + f == f * (d - q) + (f - 1 - r) by {
      assert d * (f - 1) == f * d - d;
      assert f * (d - q) == f * d - f * q;
    }
    BlockQuotient(f, d - q, f - 1 - r);
    assert d * f - 1 + f == f * d + (f - 1);
    BlockQuotient(f, d, f - 1);
  }

  lemma {:induction false} NothingMust(al: Alignment, o: string, f: int, g: int)
    requires PositiveEntries(al) && f > 0 && g > 1 && !KnownToDivide(al, o, f)
    ensures !OuterMust(al, o, f, g)
  {
    if OuterMust(al, o, f, g) {
      if o !in al {
        assert Allowed(al, o, f);
        BlockQuotient(f, 1, f - 1);
      } else {
        var d := al[o];
        MulMod(d, 1);
        MulMod(d, f - 1);
        MulMod(d, f);
        ProductNonNegative(d, f - 1);
        ProductNonNegative(d, f);
        assert Allowed(al, o, d * 1) && Allowed(al, o, d * (f - 1)) && Allowed(al, o, d * f);
        ThreeOuterExtents(d, f);
        DifferenceDivides(g, d, d - d / f);
        DifferenceDivides(g, d / f + 1, d / f);
      }
    }
  }

  /**
   * After a split the map knows that a factor divides the outer extent if and only if it does for every
   * old extent the map allowed; of the inner extent it knows the extent itself.
   */
  lemma {:induction false} SplitKnowsAll(s: Split, al: Alignment, g: int)
    requires s.SplitVar? && s.factor > 0 && g > 1 && PositiveEntries(al)
    requires s.outer !in al && s.inner !in al && s.outer != s.inner && s.old_ != s.inner && s.old_ != s.outer
    ensures KnownToDivide(AlignmentAfter(s, al), s.outer, g) <==> OuterMust(al, s.old_, s.factor, g)
    ensures KnownToDivide(AlignmentAfter(s, al), s.inner, g) <==> s.factor % g == 0
  {
    var o, f := s.old_, s.factor;
    if KnownToDivide(al, o, f) {
      var d := al[o];
      MulMod(d, 1);
      assert Allowed(al, o, d);
      OuterDivides(d, d, f);
      if KnownToDivide(AlignmentAfter(s, al), s.outer, g) {
        forall n: int | Allowed(al, o, n) ensures Divides(g, OuterExtent(Dim(0, n), f)) {
          OuterDivides(n, d, f);
          TransitiveDivides(g, d / f, n / f);
        }
      }
    } else {
      NothingMust(al, o, f, g);
    }
  }

  // ---- fuses ----

  /** After a fuse of two known extents the map knows what follows for all extents it allowed. */
  lemma {:induction false} FuseKnowsAll(s: Split, al: Alignment, g: int)
    requires s.FuseVars? && g > 1 && PositiveEntries(al) && s.outer in al && s.inner in al
    ensures KnownToDivide(AlignmentAfter(s, al), s.old_, g) <==> FusedMust(al, s.outer, s.inner, g)
  {
    var a, b := s.outer, s.inner;
    MulMod(al[a], 1);
    MulMod(al[b], 1);
    assert Allowed(al, a, al[a]) && Allowed(al, b, al[b]);
    if KnownToDivide(AlignmentAfter(s, al), s.old_, g) {
      forall m: int, n: int | Allowed(al, a, m) && Allowed(al, b, n) ensures Divides(g, n * m) {
        MulDivides(al[b], al[a], n, m);
        TransitiveDivides(g, al[b] * al[a], n * m);
      }
    }
  }

  /** With only one of the two known, the fused extent must still be a multiple of it, and that is lost. */
  lemma {:induction false} FuseForgets(s: Split, al: Alignment)
    requires s.FuseVars? && PositiveEntries(al) && s.old_ !in al && s.inner in al && s.outer !in al
    ensures FusedMust(al, s.outer, s.inner, al[s.inner])
    ensures !KnownToDivide(AlignmentAfter(s, al), s.old_, al[s.inner])
  {
    var g := al[s.inner];
    forall m: int, n: int | Allowed(al, s.outer, m) && Allowed(al, s.inner, n) ensures Divides(g, n * m) {
      var k := Multiple(n, g);
      assert n * m == g * (k * m) by { assert (g * k) * m == g * (k * m); }
      MultipleDivides(g, k * m);
    }
  }
}
