/** The photo carousel of the home page: a current index over its five images. */
module Carousel {

  /** One slide: the image file and its alternative text. */
  datatype Image = Image(src: string, alt: string)

  /** The five slides, in display order. */
  const Images: seq<Image> := [
    Image("/10.jpeg", "Vue extérieure de la demeure"),
    Image("/11.jpeg", "Salon principal"),
    Image("/12.jpeg", "Chambre principale"),
    Image("/salon.jpeg", "Cuisine traditionnelle"),
    Image("/chambre.webp", "Jardins et parc")]

  /** `(prev + 1) % images.length`. */
  function NextIndex(i: nat, n: nat): (j: nat)
    requires n > 0
    ensures j < n
    ensures i < n - 1 ==> j == i + 1
    ensures i == n - 1 ==> j == 0
  {
    (i + 1) % n
  }

  /** `(prev - 1 + images.length) % images.length`; the sum is never negative for an index. */
  function PrevIndex(i: nat, n: nat): (j: nat)
    requires 0 < n && i < n
    ensures j < n
    ensures 0 < i ==> j == i - 1
    ensures i == 0 ==> j == n - 1
  {
    (i - 1 + n) % n
  }

  /** Going back undoes going forward, and the other way round. */
  lemma PrevNextInverse(i: nat, n: nat)
    requires 0 < n && i < n
    ensures PrevIndex(NextIndex(i, n), n) == i
    ensures NextIndex(PrevIndex(i, n), n) == i
  {
  }

  /** `k` presses of the next button. */
  function NextTimes(i: nat, n: nat, k: nat): (j: nat)
    requires n > 0
    ensures j < n
  {
    if k == 0 then i % n else NextIndex(NextTimes(i, n, k - 1), n)
  }

  /** `k` presses of the next button advance the index by `k`, modulo the number of slides. */
  lemma {:induction false} NextTimesIsShift(i: nat, n: nat, k: nat)
    requires n > 0
    ensures NextTimes(i, n, k) == (i + k) % n
  {
    if k > 0 {
      NextTimesIsShift(i, n, k - 1);
      ModSucc(i + k - 1, n);
    }
  }

  /** Taking the remainder before adding one changes nothing modulo `n`. */
  lemma ModSucc(x: nat, n: nat)
    requires n > 0
    ensures (x % n + 1) % n == (x + 1) % n
  {
    var q, r := x / n, x % n;
    assert x == q * n + r;
    if r + 1 < n {
      ModUnique(r + 1, n, 0, r + 1);
      ModUnique(x + 1, n, q, r + 1);
    } else {
      assert (q + 1) * n == q * n + n;
      ModUnique(r + 1, n, 1, 0);
      ModUnique(x + 1, n, q + 1, 0);
    }
  }

  /** A remainder is determined by any decomposition with a remainder in range. */
  lemma ModUnique(a: nat, n: nat, q: int, r: int)
    requires n > 0 && 0 <= r < n && a == q * n + r
    ensures a % n == r
  {
    var q', r' := a / n, a % n;
    assert a == q' * n + r';
    if q > q' {
      MulAtLeast(q - q', n);
    } else if q < q' {
      MulAtLeast(q' - q, n);
    }
  }

  /** A positive multiple of `n` is at least `n`. */
  lemma {:induction false} MulAtLeast(d: int, n: nat)
    requires d >= 1
    ensures d * n >= n
  {
    if d > 1 {
      MulAtLeast(d - 1, n);
      assert d * n == (d - 1) * n + n;
    }
  }

  /** Five presses of the next button come back to the starting slide. */
  lemma FiveNextsReturn(i: nat)
    requires i < |Images|
    ensures NextTimes(i, |Images|, 5) == i
  {
    NextTimesIsShift(i, |Images|, 5);
  }

  /** The indicator row: one dot per slide, highlighted when it is the current one. */
  function Indicators(current: nat, n: nat): (dots: seq<bool>)
    ensures |dots| == n
    ensures forall k :: 0 <= k < n ==> (dots[k] <==> k == current)
  {
    seq(n, k => k == current)
  }

  /** For a current index in range, exactly one dot is highlighted. */
  lemma ExactlyOneIndicator(current: nat, n: nat)
    requires current < n
    ensures (set k | 0 <= k < n && Indicators(current, n)[k]) == {current}
  {
  }

  class Carousel {
    /** `currentIndex`. */
    var currentIndex: nat

    /** The index always names one of the slides. */
    predicate Valid()
      reads this
    {
      currentIndex < |Images|
    }

    /** `useState(0)`: the first slide. */
    constructor ()
      ensures Valid() && currentIndex == 0
    {
      currentIndex := 0;
    }

    /** `nextImage`. */
    method Next()
      requires Valid()
      modifies this
      ensures Valid() && currentIndex == NextIndex(old(currentIndex), |Images|)
    {
      currentIndex := (currentIndex + 1) % |Images|;
    }

    /** `prevImage`. */
    method Prev()
      requires Valid()
      modifies this
      ensures Valid() && currentIndex == PrevIndex(old(currentIndex), |Images|)
    {
      currentIndex := (currentIndex - 1 + |Images|) % |Images|;
    }

    /** `goToImage(index)`, called from the dots and thumbnails with their own index. */
    method GoTo(index: nat)
      requires index < |Images|
      modifies this
      ensures Valid() && currentIndex == index
    {
      currentIndex := index;
    }

    /** The slide on show. */
    function CurrentImage(): (img: Image)
      requires Valid()
      reads this
      ensures img in Images
    {
      Images[currentIndex]
    }
  }
}
