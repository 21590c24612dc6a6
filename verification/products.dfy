/** Products of real factors, as the parlay rollup multiplies odds. */
module Products {
  import opened Sequences

  /** A left-to-right product (the source's `reduce` from 1). */
  function Product(xs: seq<real>): real {
    if |xs| == 0 then 1.0 else xs[0] * Product(xs[1..])
  }

  lemma {:induction false} ProductConcat(xs: seq<real>, ys: seq<real>)
    ensures Product(xs + ys) == Product(xs) * Product(ys)
  {
    if |xs| == 0 {
      assert xs + ys == ys;
    } else {
      var x, p, q := xs[0], Product(xs[1..]), Product(ys);
      assert (xs + ys)[0] == x && (xs + ys)[1..] == xs[1..] + ys;
      calc {
        Product(xs + ys);
        x * Product(xs[1..] + ys);
        { ProductConcat(xs[1..], ys); }
        x * (p * q);
        { MulAssoc(x, p, q); }
        (x * p) * q;
      }
    }
  }

  lemma MulAssoc(a: real, b: real, c: real)
    ensures a * (b * c) == (a * b) * c
  {
  }

  lemma MulSwap(a: real, b: real, c: real)
    ensures a * (b * c) == b * (a * c)
  {
  }

  /** The product does not depend on the order of its factors. */
  lemma {:induction false} ProductPermutation(xs: seq<real>, ys: seq<real>)
    requires multiset(xs) == multiset(ys)
    ensures Product(xs) == Product(ys)
    decreases |xs|
  {
    if |xs| == 0 {
      assert |ys| == |multiset(ys)| == 0;
    } else {
      var i := MatchFirst(xs, ys);
      var pre, post := ys[..i], ys[i + 1..];
      assert ys == pre + [xs[0]] + post;
      ProductPermutation(xs[1..], pre + post);
      ProductSplit(pre, xs[0], post);
    }
  }

  /** Taking one factor out of the middle of a product. */
  lemma ProductSplit(pre: seq<real>, x: real, post: seq<real>)
    ensures Product(pre + [x] + post) == x * Product(pre + post)
  {
    assert ([x] + post)[0] == x && ([x] + post)[1..] == post;
    assert pre + [x] + post == pre + ([x] + post);
    calc {
      Product(pre + ([x] + post));
      { ProductConcat(pre, [x] + post); }
      Product(pre) * Product([x] + post);
      Product(pre) * (x * Product(post));
      { MulSwap(Product(pre), x, Product(post)); }
      x * (Product(pre) * Product(post));
      { ProductConcat(pre, post); }
      x * Product(pre + post);
    }
  }
}
