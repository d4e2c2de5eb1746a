/** Building the deck of a memory-matching game: the theme catalogue, the
    list in which every back image is pushed twice, and the in-place
    Fisher–Yates shuffle that permutes it. `Math.random()` is replaced by a
    sequence of draws, each a real in [0, 1). */
module Deck {

  /** The two entries of the theme catalogue. A theme name outside the
      catalogue cannot be represented, so the model has no undefined theme. */
  datatype Theme = Anime | Tools

  /** The eight back images of a theme, in catalogue order. */
  function BackImages(t: Theme): seq<string>
  {
    match t
    case Anime =>
      ["anime_image/img2.jpg", "anime_image/img3.jpg", "anime_image/img4.jpg", "anime_image/img5.jpg",
       "anime_image/img6.jpg", "anime_image/img7.jpg", "anime_image/img8.jpg", "anime_image/img9.jpg"]
    case Tools =>
      ["tools/tools2.jpg", "tools/tools3.jpg", "tools/tools4.jpg", "tools/tools5.jpg",
       "tools/tools6.jpg", "tools/tools7.jpg", "tools/tools8.jpg", "tools/tools9.jpg"]
  }

  /** No element occurs twice in `s`. */
  ghost predicate Distinct<T>(s: seq<T>)
  {
    forall i, j :: 0 <= i < j < |s| ==> s[i] != s[j]
  }

  /** Every theme has eight back images, all different. */
  lemma ThemeBacksDistinct(t: Theme)
    ensures |BackImages(t)| == 8 && Distinct(BackImages(t))
  {
  }

  // ---------------------------------------------------------------------
  // Pushing every back image twice

  /** The list `allBackImages` holds after every image of `s` has been pushed
      twice, in order. */
  function Doubled<T>(s: seq<T>): (r: seq<T>)
    ensures |r| == 2 * |s|
  {
    if s == [] then [] else Doubled(s[..|s| - 1]) + [s[|s| - 1], s[|s| - 1]]
  }

  /** The `forEach` loop that pushes each back image twice onto an emptied list. */
  method BuildPairs<T>(backs: seq<T>) returns (all: seq<T>)
    ensures all == Doubled(backs)
  {
    all := [];
    for k := 0 to |backs|
      invariant all == Doubled(backs[..k])
    {
      assert backs[..k + 1][..k] == backs[..k];
      all := all + [backs[k]];
      all := all + [backs[k]];
    }
    assert backs[..|backs|] == backs;
  }

  /** Entries 2k and 2k+1 of the doubled list are both the k-th image. */
  lemma {:induction false} DoubledAt<T>(s: seq<T>, k: nat)
    requires k < |s|
    ensures Doubled(s)[2 * k] == s[k] && Doubled(s)[2 * k + 1] == s[k]
  {
    var n := |s| - 1;
    if k < n {
      DoubledAt(s[..n], k);
    }
  }

  /** The doubled list holds every image of its source exactly twice as often. */
  lemma {:induction false} DoubledMultiset<T>(s: seq<T>)
    ensures multiset(Doubled(s)) == multiset(s) + multiset(s)
  {
    if s != [] {
      var n := |s| - 1;
      DoubledMultiset(s[..n]);
      assert s == s[..n] + [s[n]];
    }
  }

  /** In a list without repetitions an element occurs once if present and
      never otherwise. */
  lemma {:induction false} DistinctCount<T>(s: seq<T>, x: T)
    requires Distinct(s)
    ensures multiset(s)[x] == if x in s then 1 else 0
  {
    if s != [] {
      var n := |s| - 1;
      assert s == s[..n] + [s[n]];
      assert Distinct(s[..n]);
      DistinctCount(s[..n], x);
    }
  }

  // ---------------------------------------------------------------------
  // The Fisher–Yates shuffle

  /** Every draw is a value `Math.random()` can return. Draw `i` is the one
      consumed by the loop step for index `i`; draw 0 is never consumed. */
  predicate ValidDraws(draws: seq<real>)
  {
    forall k :: 0 <= k < |draws| ==> 0.0 <= draws[k] < 1.0
  }

  /** `Math.floor(r * (i + 1))` for a draw `r`: an index between 0 and i. */
  function Pick(r: real, i: nat): (j: nat)
    requires 0.0 <= r < 1.0
    ensures j <= i
  {
    var n := (i + 1) as real;
    assert r * n < n by {
      assert (1.0 - r) * n > 0.0;
    }
    (r * n).Floor
  }

  /** `s` with the entries at `i` and `j` exchanged (the same `s` when i == j). */
  function Swap<T>(s: seq<T>, i: nat, j: nat): seq<T>
    requires i < |s| && j < |s|
  {
    s[i := s[j]][j := s[i]]
  }

  /** The loop steps for indices i, i-1, ..., 1 applied to `s`. */
  function ShuffleFrom<T>(s: seq<T>, draws: seq<real>, i: int): seq<T>
    requires |draws| == |s| && ValidDraws(draws) && i < |s|
    decreases i
  {
    if i <= 0 then s
    else
      var j := Pick(draws[i], i);
      ShuffleFrom(Swap(s, i, j), draws, i - 1)
  }

  /** The whole shuffle: the loop starts at the last index. */
  function Shuffled<T>(s: seq<T>, draws: seq<real>): seq<T>
    requires |draws| == |s| && ValidDraws(draws)
  {
    ShuffleFrom(s, draws, |s| - 1)
  }

  /** A swap keeps the length and the multiset of entries. */
  lemma SwapPermutes<T>(s: seq<T>, i: nat, j: nat)
    requires i < |s| && j < |s|
    ensures |Swap(s, i, j)| == |s| && multiset(Swap(s, i, j)) == multiset(s)
  {
  }

  /** The shuffle is a permutation: same length, same multiset of entries. */
  lemma {:induction false} ShufflePermutes<T>(s: seq<T>, draws: seq<real>, i: int)
    requires |draws| == |s| && ValidDraws(draws) && i < |s|
    ensures |ShuffleFrom(s, draws, i)| == |s|
    ensures multiset(ShuffleFrom(s, draws, i)) == multiset(s)
    decreases i
  {
    if i > 0 {
      var j := Pick(draws[i], i);
      SwapPermutes(s, i, j);
      ShufflePermutes(Swap(s, i, j), draws, i - 1);
    }
  }

  /** `shuffle`: the decreasing `for` loop that swaps entry i with a random
      entry j, 0 <= j <= i, in place. */
  method Shuffle<T>(a: array<T>, draws: seq<real>)
    requires |draws| == a.Length && ValidDraws(draws)
    modifies a
    ensures a[..] == Shuffled(old(a[..]), draws)
    ensures multiset(a[..]) == multiset(old(a[..]))
  {
    var i := a.Length - 1;
    while i > 0
      invariant -1 <= i < a.Length
      invariant ShuffleFrom(a[..], draws, i) == Shuffled(old(a[..]), draws)
      decreases i
    {
      var j := Pick(draws[i], i);
      ghost var before := a[..];
      var t := a[i];
      a[i] := a[j];
      a[j] := t;
      assert a[..] == Swap(before, i, j);
      i := i - 1;
    }
    ShufflePermutes(old(a[..]), draws, a.Length - 1);
  }

  /** Draws that make every step `k` with 1 <= k <= i pick j == k leave the
      list as it is. */
  lemma {:induction false} ShuffleFromFixed<T>(s: seq<T>, draws: seq<real>, i: int)
    requires |draws| == |s| && ValidDraws(draws) && i < |s|
    requires forall k :: 1 <= k <= i ==> Pick(draws[k], k) == k
    ensures ShuffleFrom(s, draws, i) == s
    decreases i
  {
    if i > 0 {
      assert Swap(s, i, i) == s;
      ShuffleFromFixed(s, draws, i - 1);
    }
  }

  /** The draws under which only the first step moves anything: it swaps the
      last entry with the first. */
  function ReorderingDraws(n: nat): seq<real>
  {
    seq(n, k => if k <= 0 || k == n - 1 then 0.0 else (k as real) / ((k + 1) as real))
  }

  /** k / (k + 1) is a value `Math.random()` can return. */
  lemma FractionBelowOne(kr: real)
    requires kr >= 0.0
    ensures 0.0 <= kr / (kr + 1.0) < 1.0
    ensures kr / (kr + 1.0) * (kr + 1.0) == kr
  {
    var x := kr / (kr + 1.0);
    assert x * (kr + 1.0) == kr;
    assert (x - 1.0) * (kr + 1.0) == -1.0;
  }

  /** The shuffle can produce an order other than the input: whenever the
      first and last entries differ, some draws exchange them. */
  lemma ShuffleCanReorder<T>(s: seq<T>)
    requires |s| >= 2 && s[0] != s[|s| - 1]
    ensures ValidDraws(ReorderingDraws(|s|))
    ensures Shuffled(s, ReorderingDraws(|s|)) == Swap(s, |s| - 1, 0)
    ensures Shuffled(s, ReorderingDraws(|s|)) != s
  {
    var n := |s|;
    var d := ReorderingDraws(n);
    forall k | 0 <= k < n
      ensures 0.0 <= d[k] < 1.0
    {
      if 0 < k < n - 1 {
        FractionBelowOne(k as real);
      }
    }
    forall k | 1 <= k <= n - 2
      ensures Pick(d[k], k) == k
    {
      var kr := k as real;
      assert d[k] * (kr + 1.0) == kr;
    }
    assert Pick(d[n - 1], n - 1) == 0;
    var t := Swap(s, n - 1, 0);
    ShuffleFromFixed(t, d, n - 2);
    assert t[0] == s[n - 1];
  }

  // ---------------------------------------------------------------------
  // The deck of a theme

  /** The deck built from distinct back images: twice as long, each image
      exactly twice, nothing else; shuffling does not change that. */
  lemma PairedDeckCounts<T>(backs: seq<T>, draws: seq<real>)
    requires Distinct(backs)
    requires |draws| == 2 * |backs| && ValidDraws(draws)
    ensures |Shuffled(Doubled(backs), draws)| == 2 * |backs|
    ensures forall x :: multiset(Shuffled(Doubled(backs), draws))[x] == if x in backs then 2 else 0
  {
    DoubledMultiset(backs);
    ShufflePermutes(Doubled(backs), draws, 2 * |backs| - 1);
    forall x
      ensures multiset(Shuffled(Doubled(backs), draws))[x] == if x in backs then 2 else 0
    {
      DistinctCount(backs, x);
    }
  }

  /** The start of `generateCards`: empty the list, push each of the theme's
      back images twice, shuffle the list in place. */
  method BuildDeck(t: Theme, draws: seq<real>) returns (deck: seq<string>)
    requires |draws| == 2 * |BackImages(t)| && ValidDraws(draws)
    ensures deck == Shuffled(Doubled(BackImages(t)), draws)
    ensures |deck| == 16
    ensures forall x :: multiset(deck)[x] == if x in BackImages(t) then 2 else 0
  {
    ThemeDeck(t, draws);
    var pairs := BuildPairs(BackImages(t));
    var a := new string[|pairs|](k requires 0 <= k < |pairs| => pairs[k]);
    assert a[..] == pairs;
    Shuffle(a, draws);
    deck := a[..];
  }

  /** With a catalogue theme the deck has exactly the 16 entries the card
      loop reads, and each of the theme's back images occurs exactly twice. */
  lemma ThemeDeck(t: Theme, draws: seq<real>)
    requires |draws| == 16 && ValidDraws(draws)
    ensures |Shuffled(Doubled(BackImages(t)), draws)| == 16
    ensures forall x :: multiset(Shuffled(Doubled(BackImages(t)), draws))[x] == if x in BackImages(t) then 2 else 0
  {
    ThemeBacksDistinct(t);
    PairedDeckCounts(BackImages(t), draws);
  }

  /** A theme's deck is not always dealt in the order it was built: some
      draws move its last pair member to the front. */
  lemma ThemeDeckCanReorder(t: Theme)
    ensures ValidDraws(ReorderingDraws(16))
    ensures Shuffled(Doubled(BackImages(t)), ReorderingDraws(16)) != Doubled(BackImages(t))
  {
    var b := BackImages(t);
    ThemeBacksDistinct(t);
    DoubledAt(b, 0);
    DoubledAt(b, 7);
    ShuffleCanReorder(Doubled(b));
  }
}
