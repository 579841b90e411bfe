/**
 * Thumbnail locator rewriting (`cropImage`). A picture locator has the shape
 * `https://<domain>/<key>/<id>/<width>/<height>`; the script splits it on '/',
 * keeps the pieces from the third on (domain, key, id, width, height),
 * divides width and height by `size` rounding down, and prints a new
 * locator with the same domain, key and id.
 */
module Locator {
  import opened Text

  /** Index of each named piece in `Split(locator, '/')`. */
  const DomainAt: nat := 2
  const KeyAt: nat := 3
  const IdAt: nat := 4
  const WidthAt: nat := 5
  const HeightAt: nat := 6

  /**
   * The locators the script can rewrite: at least seven '/'-separated pieces
   * (pieces after the seventh are ignored by the destructuring) whose width
   * and height pieces are decimal numbers.
   */
  predicate IsLocator(src: string) {
    var p := Split(src, '/');
    |p| > HeightAt && IsDigits(p[WidthAt]) && IsDigits(p[HeightAt])
  }

  function Width(src: string): nat
    requires IsLocator(src)
  {
    Value(Split(src, '/')[WidthAt])
  }

  function Height(src: string): nat
    requires IsLocator(src)
  {
    Value(Split(src, '/')[HeightAt])
  }

  /**
   * `Math.floor(n / size)` for a whole `n` and a whole `size` of at least 1,
   * by repeated subtraction; `FloorDivIsDiv` shows it is `n / size`. Keeping
   * the division behind a recursive definition keeps the solver away from
   * nonlinear arithmetic in the proofs about printed locators.
   */
  function FloorDiv(n: nat, size: nat): nat
    requires size >= 1
    decreases n
  {
    if n < size then 0 else 1 + FloorDiv(n - size, size)
  }

  /** The pieces of a cropped locator: same domain, key and id, scaled dimensions. */
  function CroppedPieces(p: seq<string>, size: nat): seq<string>
    requires |p| > HeightAt && IsDigits(p[WidthAt]) && IsDigits(p[HeightAt]) && size >= 1
  {
    ["https:", "", p[DomainAt], p[KeyAt], p[IdAt],
     Digits(FloorDiv(Value(p[WidthAt]), size)), Digits(FloorDiv(Value(p[HeightAt]), size))]
  }

  /**
   * `cropImage(src, size = 2)`: splitting the result on '/' gives the scheme,
   * the domain, key and id of `src` unchanged, and the scaled dimensions
   * (see `CropImageDims` for what they read back as).
   */
  function CropImage(src: string, size: nat := 2): (r: string)
    requires IsLocator(src) && size >= 1
    ensures Split(r, '/') == CroppedPieces(Split(src, '/'), size)
  {
    var p := Split(src, '/');
    var w, h := FloorDiv(Value(p[WidthAt]), size), FloorDiv(Value(p[HeightAt]), size);
    PrintedPieces(p[DomainAt], p[KeyAt], p[IdAt], Digits(w), Digits(h));
    "https://" + p[DomainAt] + "/" + p[KeyAt] + "/" + p[IdAt] + "/" + Digits(w) + "/" + Digits(h)
  }

  /**
   * The result of cropping is again a locator whose width and height are
   * the originals divided by `size`, rounded down, and never larger.
   */
  lemma CropImageDims(src: string, size: nat)
    requires IsLocator(src) && size >= 1
    ensures IsLocator(CropImage(src, size))
    ensures Width(CropImage(src, size)) == Width(src) / size <= Width(src)
    ensures Height(CropImage(src, size)) == Height(src) / size <= Height(src)
  {
    var w, h := FloorDiv(Width(src), size), FloorDiv(Height(src), size);
    PrintedDims(CropImage(src, size), w, h);
    FloorDivIsDiv(Width(src), size);
    FloorDivIsDiv(Height(src), size);
  }

  /** A locator whose dimension pieces are printed numbers reads back as those numbers. */
  lemma PrintedDims(r: string, w: nat, h: nat)
    requires |Split(r, '/')| > HeightAt
    requires Split(r, '/')[WidthAt] == Digits(w) && Split(r, '/')[HeightAt] == Digits(h)
    ensures IsLocator(r) && Width(r) == w && Height(r) == h
  {
    ValueDigits(w);
    ValueDigits(h);
  }

  /** The template literal of the script is the seven pieces joined with '/'. */
  lemma TemplateIsJoin(d: string, k: string, i: string, w: string, h: string)
    ensures "https://" + d + "/" + k + "/" + i + "/" + w + "/" + h
         == Join(["https:", "", d, k, i, w, h], '/')
  {
    JoinCons(w, [h], '/');
    JoinCons(i, [w, h], '/');
    JoinCons(k, [i, w, h], '/');
    JoinCons(d, [k, i, w, h], '/');
    JoinCons("", [d, k, i, w, h], '/');
    JoinCons("https:", ["", d, k, i, w, h], '/');
    var tail := d + "/" + (k + "/" + (i + "/" + (w + "/" + h)));
    assert Join(["https:", "", d, k, i, w, h], '/') == "https:" + "/" + ("" + "/" + tail);
    assert "https:" + "/" + ("" + "/" + tail) == "https://" + tail;
  }

  /** Splitting `https://d/k/i/w/h` gives its pieces back when none of them holds a '/'. */
  lemma PrintedPieces(d: string, k: string, i: string, w: string, h: string)
    requires '/' !in d && '/' !in k && '/' !in i && IsDigits(w) && IsDigits(h)
    ensures Split("https://" + d + "/" + k + "/" + i + "/" + w + "/" + h, '/')
         == ["https:", "", d, k, i, w, h]
  {
    var parts := ["https:", "", d, k, i, w, h];
    assert forall j :: 0 <= j < |parts| ==> '/' !in parts[j];
    TemplateIsJoin(d, k, i, w, h);
    SplitJoin(parts, '/');
  }

  /** Two texts with the same pieces are the same text. */
  lemma SamePieces(r1: string, r2: string, c: char)
    requires Split(r1, c) == Split(r2, c)
    ensures r1 == r2
  {
    JoinSplit(r1, c);
    JoinSplit(r2, c);
  }

  /** Repeated subtraction computes `Math.floor(n / size)`, which is at most `n`. */
  lemma {:induction false} FloorDivIsDiv(n: nat, size: nat)
    requires size >= 1
    ensures FloorDiv(n, size) == n / size <= n
    decreases n
  {
    if n < size {
      DivUnique(n, size, 0, n);
    } else {
      FloorDivIsDiv(n - size, size);
      var q, r := (n - size) / size, (n - size) % size;
      assert n == size * (q + 1) + r;
      DivUnique(n, size, q + 1, r);
    }
  }

  /** Rounding down twice is rounding down once by the product. */
  lemma {:induction false} DivDiv(n: nat, a: nat, b: nat)
    requires a >= 1 && b >= 1
    ensures n / a / b == n / (a * b)
  {
    var m, r1 := n / a, n % a;
    var q, r2 := m / b, m % b;
    var ab, rest := a * b, a * r2 + r1;
    assert n == ab * q + rest by {
      assert n == a * m + r1;
      assert m == b * q + r2;
      Distrib(a, b * q, r2);
      MulAssoc(a, b, q);
    }
    assert rest < ab by {
      assert r1 < a && r2 < b;
      MulLe(a, r2, b - 1);
      Distrib(a, b, -1);
    }
    DivUnique(n, ab, q, rest);
  }

  lemma Distrib(a: int, x: int, y: int)
    ensures a * (x + y) == a * x + a * y
  {
  }

  lemma MulAssoc(a: int, b: int, c: int)
    ensures a * (b * c) == (a * b) * c
  {
  }

  lemma MulLe(a: nat, x: nat, y: nat)
    requires x <= y
    ensures a * x <= a * y
  {
  }

  lemma {:induction false} DivUnique(n: nat, d: nat, q: nat, r: nat)
    requires d >= 1 && n == d * q + r && r < d
    ensures n / d == q
  {
    var q' := n / d;
    if q' < q {
      MulStep(d, q', q);
    } else if q' > q {
      MulStep(d, q, q');
    }
  }

  lemma MulStep(d: int, x: int, y: int)
    requires d >= 0 && x < y
    ensures d * x + d <= d * y
  {
    var k := y - x - 1;
    assert y == x + 1 + k;
    assert d * y == d * x + d + d * k;
    assert d * k >= 0;
  }

  /** Cropping by `a` and then by `b` is cropping once by `a * b`. */
  lemma CropTwice(src: string, a: nat, b: nat)
    requires IsLocator(src) && a >= 1 && b >= 1
    ensures CropImage(CropImage(src, a), b) == CropImage(src, a * b)
  {
    var once := CropImage(src, a);
    CropImageDims(src, a);
    var w, h := Width(src), Height(src);
    FloorDivIsDiv(w, a);
    FloorDivIsDiv(h, a);
    FloorDivIsDiv(w / a, b);
    FloorDivIsDiv(h / a, b);
    FloorDivIsDiv(w, a * b);
    FloorDivIsDiv(h, a * b);
    DivDiv(w, a, b);
    DivDiv(h, a, b);
    assert FloorDiv(Width(once), b) == FloorDiv(w, a * b);
    assert FloorDiv(Height(once), b) == FloorDiv(h, a * b);
    SamePieces(CropImage(once, b), CropImage(src, a * b), '/');
  }

  /**
   * A locator already in the printed form (`https://`, exactly five more pieces,
   * dimensions without leading zeros) is left unchanged by cropping with size 1.
   */
  lemma CropByOne(src: string)
    requires IsLocator(src)
    requires |Split(src, '/')| == HeightAt + 1
    requires Split(src, '/')[0] == "https:" && Split(src, '/')[1] == ""
    requires Split(src, '/')[WidthAt] == Digits(Width(src))
    requires Split(src, '/')[HeightAt] == Digits(Height(src))
    ensures CropImage(src, 1) == src
  {
    FloorDivIsDiv(Width(src), 1);
    FloorDivIsDiv(Height(src), 1);
    SamePieces(CropImage(src, 1), src, '/');
  }
}
