/** The similarity scorer (compare): the percentage of positions of the
    target sequence at which the attempt holds the same codon. The source
    divides floats; here the percentage is an exact real. */
module Similarity {

  /** Number of positions i < |target| with attempt[i] == target[i]. */
  function MatchCount(attempt: seq<string>, target: seq<string>): (n: nat)
    requires |attempt| >= |target|
    ensures n <= |target|
    decreases |target|
  {
    if target == [] then 0
    else
      var last := |target| - 1;
      MatchCount(attempt, target[..last]) + (if attempt[last] == target[last] then 1 else 0)
  }

  /** `100 * count / len(target)`. */
  function Score(attempt: seq<string>, target: seq<string>): (r: real)
    requires |target| > 0 && |attempt| >= |target|
    ensures 0.0 <= r <= 100.0
  {
    100.0 * (MatchCount(attempt, target) as real) / (|target| as real)
  }

  /** The loop of compare. Python raises ZeroDivisionError on an empty
      target and IndexError on an attempt shorter than the target; both are
      excluded here. */
  method Compare(attempt: seq<string>, target: seq<string>) returns (r: real)
    requires |target| > 0 && |attempt| >= |target|
    ensures r == Score(attempt, target)
    ensures 0.0 <= r <= 100.0
  {
    var count: nat := 0;
    for i := 0 to |target|
      invariant count == MatchCount(attempt, target[..i])
    {
      assert target[..i + 1][..i] == target[..i];
      if attempt[i] == target[i] {
        count := count + 1;
      }
    }
    assert target[..|target|] == target;
    r := 100.0 * (count as real) / (|target| as real);
  }

  /** Every target position matches exactly when the attempt begins with the
      target. */
  lemma {:induction false} AllMatchIffPrefix(attempt: seq<string>, target: seq<string>)
    requires |attempt| >= |target|
    ensures MatchCount(attempt, target) == |target| <==> attempt[..|target|] == target
  {
    if target != [] {
      var last := |target| - 1;
      AllMatchIffPrefix(attempt, target[..last]);
      assert attempt[..|target|][..last] == attempt[..last];
      if attempt[..|target|] == target {
        assert attempt[..last] == target[..last];
      }
      if MatchCount(attempt, target) == |target| {
        assert attempt[..|target|] == attempt[..last] + [attempt[last]];
        assert target == target[..last] + [target[last]];
      }
    }
  }

  /** The score is 100 exactly when the attempt begins with the target. */
  lemma FullScoreIffPrefix(attempt: seq<string>, target: seq<string>)
    requires |target| > 0 && |attempt| >= |target|
    ensures Score(attempt, target) == 100.0 <==> attempt[..|target|] == target
  {
    AllMatchIffPrefix(attempt, target);
  }

  /** compare(s, s) == 100 for a non-empty s. */
  lemma SelfScore(s: seq<string>)
    requires |s| > 0
    ensures Score(s, s) == 100.0
  {
    FullScoreIffPrefix(s, s);
  }

  /** Positions of the attempt beyond the target's length do not matter. */
  lemma {:induction false} TailIgnored(attempt: seq<string>, other: seq<string>, target: seq<string>)
    requires |attempt| >= |target| && |other| >= |target|
    requires attempt[..|target|] == other[..|target|]
    ensures MatchCount(attempt, target) == MatchCount(other, target)
  {
    if target != [] {
      var last := |target| - 1;
      assert attempt[last] == attempt[..|target|][last];
      assert other[last] == other[..|target|][last];
      assert attempt[..last] == attempt[..|target|][..last];
      assert other[..last] == other[..|target|][..last];
      TailIgnored(attempt, other, target[..last]);
    }
  }

  /** compare(["ATG", "CCC"], ["ATG", "GGG"]) == 50. */
  lemma HalfMatchExample()
    ensures Score(["ATG", "CCC"], ["ATG", "GGG"]) == 50.0
  {
  }
}
