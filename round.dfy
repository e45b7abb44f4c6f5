/** Building one round of the game: the list of six distinct colour options
    that contains the target, grown from a stream of drawn colours and then
    put in an order the caller chooses. */
module Round {
  import opened Colors

  /** The number of option buttons a round shows. */
  const OptionCount: nat := 6

  predicate Distinct(s: seq<Color>)
  {
    forall i, j :: 0 <= i < j < |s| ==> s[i] != s[j]
  }

  function Elems(s: seq<Color>): set<Color>
  {
    set x | x in s
  }

  /** The colours a stream of draws formats to. */
  function ColorSet(draws: seq<Rgb>): set<Color>
  {
    if draws == [] then {} else {FormatRgb(draws[0])} + ColorSet(draws[1..])
  }

  /** The distinct triples in a stream of draws. */
  function Palette(draws: seq<Rgb>): set<Rgb>
  {
    set d | d in draws
  }

  /** The draws supply at least six distinct colours, so the option loop
      finishes. */
  predicate EnoughColors(first: Rgb, draws: seq<Rgb>)
  {
    |Palette([first] + draws)| >= OptionCount
  }

  /** A round as the game shows it: six distinct options, the target among
      them exactly once. */
  predicate WellFormedRound(target: Color, options: seq<Color>)
  {
    |options| == OptionCount && Distinct(options) && multiset(options)[target] == 1
  }

  // ---------------------------------------------------------------------------
  // Growing the options

  /** What the option loop computes: while fewer than six options are held,
      format the next draw and append it unless it is already held. */
  function Grow(options: seq<Color>, draws: seq<Rgb>): (r: seq<Color>)
    ensures options <= r
    ensures |options| <= OptionCount ==> |r| <= OptionCount
    ensures Distinct(options) ==> Distinct(r)
    ensures Elems(r) <= Elems(options) + ColorSet(draws)
    decreases |draws|
  {
    if |options| >= OptionCount || draws == [] then options
    else
      var c := FormatRgb(draws[0]);
      if c in options then Grow(options, draws[1..])
      else
        assert Elems(options + [c]) == Elems(options) + {c};
        Grow(options + [c], draws[1..])
  }

  /** The option loop of the round initialiser: seeded with the correct
      colour, it consumes draws until six distinct colours are held. */
  method BuildOptions(correct: Color, draws: seq<Rgb>) returns (options: seq<Color>)
    ensures options == Grow([correct], draws)
    ensures 1 <= |options| <= OptionCount && Distinct(options) && options[0] == correct
    ensures Elems(options) <= {correct} + ColorSet(draws)
  {
    options := [correct];
    var i := 0;
    while |options| < OptionCount && i < |draws|
      invariant 0 <= i <= |draws|
      invariant 1 <= |options| <= OptionCount && options[0] == correct
      invariant Distinct(options)
      invariant Grow(options, draws[i..]) == Grow([correct], draws)
    {
      var newColor := FormatRgb(draws[i]);
      assert draws[i..][1..] == draws[i + 1..];
      if newColor !in options {
        options := options + [newColor];
      }
      i := i + 1;
    }
  }

  /** A list without repeats has as many distinct elements as entries. */
  lemma {:induction false} DistinctCard(s: seq<Color>)
    requires Distinct(s)
    ensures |Elems(s)| == |s|
  {
    if s != [] {
      DistinctCard(s[1..]);
      assert Elems(s) == {s[0]} + Elems(s[1..]);
      assert s[0] !in Elems(s[1..]);
    }
  }

  /** In a list without repeats every element occurs exactly once. */
  lemma {:induction false} DistinctOnce(s: seq<Color>, x: Color)
    requires Distinct(s)
    ensures multiset(s)[x] == if x in s then 1 else 0
  {
    if s != [] {
      assert s == [s[0]] + s[1..];
      DistinctOnce(s[1..], x);
      assert s[0] !in s[1..];
    }
  }

  /** Distinct triples format to distinct colours, so a stream holds as many
      distinct colours as distinct triples. */
  lemma {:induction false} ColorSetSize(draws: seq<Rgb>)
    ensures |ColorSet(draws)| == |Palette(draws)|
  {
    if draws != [] {
      var d, rest := draws[0], draws[1..];
      ColorSetSize(rest);
      FormattedIn(rest, d);
      assert ColorSet(draws) == {FormatRgb(d)} + ColorSet(rest);
      assert Palette(draws) == {d} + Palette(rest);
      if d in rest {
        assert Palette(draws) == Palette(rest);
        assert ColorSet(draws) == ColorSet(rest);
      } else {
        assert d !in Palette(rest);
        assert |Palette(draws)| == |Palette(rest)| + 1;
        assert |ColorSet(draws)| == |ColorSet(rest)| + 1;
      }
    }
  }

  /** A draw's colour is in the stream's colours exactly when the draw is. */
  lemma {:induction false} FormattedIn(draws: seq<Rgb>, d: Rgb)
    ensures FormatRgb(d) in ColorSet(draws) <==> d in draws
  {
    if draws != [] {
      FormattedIn(draws[1..], d);
      if FormatRgb(draws[0]) == FormatRgb(d) {
        FormatInjective(draws[0], d);
      }
    }
  }

  /** The loop reaches six options exactly when the seed and the draws hold
      six distinct colours between them. */
  lemma {:induction false} GrowFills(options: seq<Color>, draws: seq<Rgb>)
    requires Distinct(options) && |options| <= OptionCount
    ensures |Grow(options, draws)| == OptionCount <==>
            |Elems(options) + ColorSet(draws)| >= OptionCount
    decreases |draws|
  {
    var r := Grow(options, draws);
    DistinctCard(r);
    DistinctCard(options);
    if |r| == OptionCount {
      assert |Elems(r)| <= |Elems(options) + ColorSet(draws)| by {
        SubsetCard(Elems(r), Elems(options) + ColorSet(draws));
      }
    } else if draws != [] && |options| < OptionCount {
      var c := FormatRgb(draws[0]);
      if c in options {
        GrowFills(options, draws[1..]);
        assert Elems(options) + ColorSet(draws) == Elems(options) + ColorSet(draws[1..]);
      } else {
        var next := options + [c];
        assert Elems(next) == Elems(options) + {c};
        GrowFills(next, draws[1..]);
        assert Elems(next) + ColorSet(draws[1..]) == Elems(options) + ColorSet(draws);
      }
    }
  }

  lemma SubsetCard(a: set<Color>, b: set<Color>)
    requires a <= b
    ensures |a| <= |b|
  {
    assert b == a + (b - a);
  }

  // ---------------------------------------------------------------------------
  // Shuffling

  /** perm lists each index 0 .. n-1 exactly once. */
  predicate IsPermutation(perm: seq<nat>, n: nat)
  {
    |perm| == n &&
    (forall i :: 0 <= i < n ==> perm[i] < n) &&
    (forall i, j :: 0 <= i < j < n ==> perm[i] != perm[j]) &&
    (forall k :: 0 <= k < n ==> k in perm)
  }

  /** The list reordered by perm: entry i of the result is entry perm[i]. */
  function Shuffle(s: seq<Color>, perm: seq<nat>): (r: seq<Color>)
    requires IsPermutation(perm, |s|)
    ensures |r| == |s|
    ensures Distinct(s) ==> Distinct(r)
  {
    seq(|s|, i requires 0 <= i < |s| => s[perm[i]])
  }

  /** Dropping the position that holds the largest index leaves a
      permutation of the smaller indices. */
  lemma DropLargest(perm: seq<nat>, n: nat, j: nat)
    requires IsPermutation(perm, n) && j < n && perm[j] == n - 1
    ensures IsPermutation(perm[..j] + perm[j + 1..], n - 1)
  {
    var perm' := perm[..j] + perm[j + 1..];
    assert forall i :: 0 <= i < n - 1 ==> perm'[i] == if i < j then perm[i] else perm[i + 1];
    forall k | 0 <= k < n - 1 ensures k in perm' {
      assert k in perm;
      var i :| 0 <= i < n && perm[i] == k;
      if i < j { assert perm'[i] == k; } else { assert perm'[i - 1] == k; }
    }
  }

  /** Shuffling by perm puts the last entry at position j and the rest in the
      order of the shorter permutation. */
  lemma ShuffleSplit(s: seq<Color>, perm: seq<nat>, j: nat)
    requires |s| > 0 && IsPermutation(perm, |s|) && j < |s| && perm[j] == |s| - 1
    requires IsPermutation(perm[..j] + perm[j + 1..], |s| - 1)
    ensures var r' := Shuffle(s[..|s| - 1], perm[..j] + perm[j + 1..]);
      Shuffle(s, perm) == r'[..j] + [s[|s| - 1]] + r'[j..]
  {
    var n := |s|;
    var perm' := perm[..j] + perm[j + 1..];
    var r' := Shuffle(s[..n - 1], perm');
    var r := Shuffle(s, perm);
    var t := r'[..j] + [s[n - 1]] + r'[j..];
    assert |t| == n;
    forall i | 0 <= i < n ensures r[i] == t[i] {
      if i < j {
        assert perm'[i] == perm[i];
      } else if i > j {
        assert perm'[i - 1] == perm[i];
      }
    }
  }

  lemma MultisetSplice(r: seq<Color>, j: nat, x: Color)
    requires j <= |r|
    ensures multiset(r[..j] + [x] + r[j..]) == multiset(r) + multiset{x}
  {
    assert r == r[..j] + r[j..];
  }

  /** Reordering keeps the multiset of colours. */
  lemma {:induction false} ShuffleKeepsColors(s: seq<Color>, perm: seq<nat>)
    requires IsPermutation(perm, |s|)
    ensures multiset(Shuffle(s, perm)) == multiset(s)
    decreases |s|
  {
    var n := |s|;
    if n > 0 {
      assert n - 1 in perm;
      var j :| 0 <= j < n && perm[j] == n - 1;
      var perm' := perm[..j] + perm[j + 1..];
      var init, last := s[..n - 1], s[n - 1];
      DropLargest(perm, n, j);
      ShuffleKeepsColors(init, perm');
      ShuffleSplit(s, perm, j);
      MultisetSplice(Shuffle(init, perm'), j, last);
      assert s == init + [last];
    }
  }

  // ---------------------------------------------------------------------------
  // A whole round

  /** The options of a round that the draws fill: the grown list, reordered. */
  function NewOptions(first: Rgb, draws: seq<Rgb>, perm: seq<nat>): (options: seq<Color>)
    requires EnoughColors(first, draws) && IsPermutation(perm, OptionCount)
    ensures WellFormedRound(FormatRgb(first), options)
  {
    var target := FormatRgb(first);
    var grown := Grow([target], draws);
    RoundFromDraws(first, draws);
    ShuffleKeepsColors(grown, perm);
    DistinctOnce(grown, target);
    Shuffle(grown, perm)
  }

  /** Seeded with the target, the loop fills six distinct options holding the
      target once, whenever the draws supply six distinct colours. */
  lemma RoundFromDraws(first: Rgb, draws: seq<Rgb>)
    requires EnoughColors(first, draws)
    ensures var r := Grow([FormatRgb(first)], draws);
      |r| == OptionCount && Distinct(r) && r[0] == FormatRgb(first)
  {
    var target := FormatRgb(first);
    var all := [first] + draws;
    assert all[1..] == draws;
    ColorSetSize(all);
    assert Elems([target]) + ColorSet(draws) == ColorSet(all);
    GrowFills([target], draws);
  }
}
