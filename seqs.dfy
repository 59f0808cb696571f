/**
 * The table operations the recommender is built from, stated over sequences:
 * a boolean mask that keeps rows in order, substring search, and drawing
 * rows at distinct positions (a sample without replacement).
 */
module Seqs {

  /** The elements of `xs` that satisfy `keep`, in their original order. */
  function Where<T(==,!new)>(xs: seq<T>, keep: T -> bool): (r: seq<T>)
    ensures |r| <= |xs|
    ensures forall i :: 0 <= i < |r| ==> keep(r[i])
    ensures forall x :: keep(x) ==> multiset(r)[x] == multiset(xs)[x]
    ensures forall x :: !keep(x) ==> multiset(r)[x] == 0
    ensures forall x :: x in r <==> x in xs && keep(x)
  {
    if xs == [] then []
    else
      var rest := Where(xs[1..], keep);
      assert xs == [xs[0]] + xs[1..];
      if keep(xs[0]) then [xs[0]] + rest else rest
  }

  /** Masking a concatenation masks each part: kept elements stay in their original order. */
  lemma {:induction false} WhereConcat<T(!new)>(xs: seq<T>, ys: seq<T>, keep: T -> bool)
    ensures Where(xs + ys, keep) == Where(xs, keep) + Where(ys, keep)
  {
    if xs == [] {
      assert xs + ys == ys;
    } else {
      assert (xs + ys)[1..] == xs[1..] + ys;
      WhereConcat(xs[1..], ys, keep);
    }
  }

  /** A mask that keeps everything leaves the sequence unchanged. */
  lemma {:induction false} WhereAll<T(!new)>(xs: seq<T>, keep: T -> bool)
    requires forall x :: keep(x)
    ensures Where(xs, keep) == xs
  {
    if xs != [] {
      WhereAll(xs[1..], keep);
    }
  }

  /** Two masks that agree on every element keep the same elements. */
  lemma {:induction false} WhereSameMask<T(!new)>(xs: seq<T>, p: T -> bool, q: T -> bool)
    requires forall x :: p(x) == q(x)
    ensures Where(xs, p) == Where(xs, q)
  {
    if xs != [] {
      WhereSameMask(xs[1..], p, q);
    }
  }

  /** Masking twice is masking once with the conjunction of the two masks. */
  lemma {:induction false} WhereWhere<T(!new)>(xs: seq<T>, p: T -> bool, q: T -> bool, both: T -> bool)
    requires forall x :: both(x) == (p(x) && q(x))
    ensures Where(Where(xs, p), q) == Where(xs, both)
  {
    if xs != [] {
      WhereWhere(xs[1..], p, q, both);
    }
  }

  /** Whether `needle` occurs in `text` as a contiguous run, searching from the left. */
  predicate Contains<T(==)>(text: seq<T>, needle: seq<T>)
    decreases |text|
  {
    needle <= text || (text != [] && Contains(text[1..], needle))
  }

  /** Whether `needle` occurs in `text` starting at position `i`. */
  ghost predicate OccursAt<T>(text: seq<T>, needle: seq<T>, i: nat) {
    i + |needle| <= |text| && text[i..i + |needle|] == needle
  }

  /** An occurrence in the tail of `text` is an occurrence one position further in `text`. */
  lemma OccursInTail<T>(text: seq<T>, needle: seq<T>, i: nat)
    requires text != []
    ensures OccursAt(text[1..], needle, i) <==> OccursAt(text, needle, i + 1)
  {
    if i + 1 + |needle| <= |text| {
      assert text[1..][i..i + |needle|] == text[i + 1..i + 1 + |needle|];
    }
  }

  /** The search finds `needle` exactly when it occurs at some position of `text`. */
  lemma {:induction false} ContainsIff<T>(text: seq<T>, needle: seq<T>)
    ensures Contains(text, needle) <==> exists i: nat :: OccursAt(text, needle, i)
    decreases |text|
  {
    if Contains(text, needle) {
      if needle <= text {
        assert OccursAt(text, needle, 0);
      } else {
        ContainsIff(text[1..], needle);
        var i: nat :| OccursAt(text[1..], needle, i);
        OccursInTail(text, needle, i);
      }
    }
    if exists i: nat :: OccursAt(text, needle, i) {
      var i: nat :| OccursAt(text, needle, i);
      if i == 0 {
        assert needle <= text;
      } else {
        OccursInTail(text, needle, i - 1);
        ContainsIff(text[1..], needle);
      }
    }
  }

  /** Whether `draw` lists `n` distinct positions below `len`. */
  predicate IsDraw(draw: seq<nat>, n: nat, len: nat) {
    && |draw| == n
    && (forall p :: 0 <= p < |draw| ==> draw[p] < len)
    && (forall p, q :: 0 <= p < q < |draw| ==> draw[p] != draw[q])
  }

  /** The elements of `xs` at the positions listed in `draw`, in draw order. */
  function Pick<T>(xs: seq<T>, draw: seq<nat>): seq<T>
    requires forall p :: 0 <= p < |draw| ==> draw[p] < |xs|
  {
    seq(|draw|, p requires 0 <= p < |draw| => xs[draw[p]])
  }

  /** The positions of `draw` renumbered for a sequence from which position `i` was removed. */
  function Renumber(draw: seq<nat>, i: nat): (r: seq<nat>)
    requires forall p :: 0 <= p < |draw| ==> draw[p] != i
    ensures |r| == |draw|
    ensures forall p :: 0 <= p < |r| ==> r[p] == (if draw[p] < i then draw[p] else draw[p] - 1)
  {
    seq(|draw|, p requires 0 <= p < |draw| => if draw[p] < i then draw[p] else draw[p] - 1)
  }

  /** After removing position `i`, the rest of a draw is a draw into what remains and picks the same elements. */
  lemma RenumberedDraw<T>(xs: seq<T>, draw: seq<nat>)
    requires |draw| > 0 && IsDraw(draw, |draw|, |xs|)
    ensures var i := draw[0];
      && IsDraw(Renumber(draw[1..], i), |draw| - 1, |xs| - 1)
      && Pick(xs[..i] + xs[i + 1..], Renumber(draw[1..], i)) == Pick(xs, draw[1..])
  {
    var i := draw[0];
    var rest := Renumber(draw[1..], i);
    forall p, q | 0 <= p < q < |rest| ensures rest[p] != rest[q] {
      assert draw[p + 1] != draw[q + 1];
    }
  }

  /** Removing the element at `i` removes one occurrence of it. */
  lemma RemoveAt<T>(xs: seq<T>, i: nat)
    requires i < |xs|
    ensures multiset(xs) == multiset(xs[..i] + xs[i + 1..]) + multiset{xs[i]}
  {
    assert xs == xs[..i] + [xs[i]] + xs[i + 1..];
  }

  /** Picking at distinct positions never takes an element more often than it occurs. */
  lemma {:induction false} PickWithoutReplacement<T>(xs: seq<T>, draw: seq<nat>)
    requires IsDraw(draw, |draw|, |xs|)
    ensures multiset(Pick(xs, draw)) <= multiset(xs)
    decreases |draw|
  {
    if draw != [] {
      var i := draw[0];
      var ys := xs[..i] + xs[i + 1..];
      var rest := Renumber(draw[1..], i);
      RenumberedDraw(xs, draw);
      PickWithoutReplacement(ys, rest);
      RemoveAt(xs, i);
      PickFirst(xs, draw);
      assert multiset(Pick(xs, draw)) == multiset{xs[i]} + multiset(Pick(ys, rest));
    }
  }

  /** Picking splits into the first position and the rest of the draw. */
  lemma PickFirst<T>(xs: seq<T>, draw: seq<nat>)
    requires |draw| > 0 && forall p :: 0 <= p < |draw| ==> draw[p] < |xs|
    ensures Pick(xs, draw) == [xs[draw[0]]] + Pick(xs, draw[1..])
  {
  }

  /** The smaller of two counts. */
  function Min(a: nat, b: nat): nat {
    if a <= b then a else b
  }

  /**
   * A sample of `n` elements without replacement when more than `n` remain,
   * otherwise everything; `draw` is the injected random choice of positions.
   */
  function Sample<T(==)>(xs: seq<T>, n: nat, draw: seq<nat>): (r: seq<T>)
    requires |xs| > n ==> IsDraw(draw, n, |xs|)
    ensures |r| == Min(n, |xs|)
    ensures multiset(r) <= multiset(xs)
    ensures forall x :: x in r ==> x in xs
    ensures |xs| <= n ==> r == xs
  {
    if |xs| > n then
      PickWithoutReplacement(xs, draw);
      Pick(xs, draw)
    else
      xs
  }

  /** Positions 0, 1, 2 and positions 1, 2, 3 are both draws of three from more than three elements. */
  lemma ShiftedDraws(len: nat)
    requires len > 3
    ensures IsDraw([0, 1, 2], 3, len) && IsDraw([1, 2, 3], 3, len)
  {
  }

  /** Drawing positions 0, 1, 2 and drawing 1, 2, 3 give different samples when the first and fourth elements differ. */
  lemma SampleDrawsCanDiffer<T>(xs: seq<T>)
    requires |xs| > 3 && xs[0] != xs[3]
    ensures multiset(Sample(xs, 3, [0, 1, 2])) != multiset(Sample(xs, 3, [1, 2, 3]))
  {
    assert IsDraw([0, 1, 2], 3, |xs|);
    assert IsDraw([1, 2, 3], 3, |xs|);
    var first := Sample(xs, 3, [0, 1, 2]);
    var second := Sample(xs, 3, [1, 2, 3]);
    assert first == [xs[0]] + [xs[1], xs[2]];
    assert second == [xs[1], xs[2]] + [xs[3]];
    assert multiset(first)[xs[0]] == multiset(second)[xs[0]] + 1;
  }
}
