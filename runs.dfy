/**
 * Runs of consecutive integers in an index list: what `ReelService.longest_seq`
 * promises, stated declaratively, and an independent reference definition
 * (`LongestRun`) that scans run starts rather than run ends.
 */
module Runs {

  /** `hit[s..e]` is a slice whose neighbours step up by exactly one. */
  ghost predicate IsRun(hit: seq<int>, s: int, e: int)
  {
    0 <= s <= e <= |hit| && forall k :: s <= k < e - 1 ==> hit[k] + 1 == hit[k + 1]
  }

  /** Some adjacent pair of `hit` is consecutive. */
  predicate HasStep(hit: seq<int>)
  {
    exists i :: 0 <= i < |hit| - 1 && hit[i] + 1 == hit[i + 1]
  }

  /**
   * `hit[s..e]` is a run of at least two entries, no run is longer, and
   * every run that starts earlier is strictly shorter (ties go to the earliest).
   */
  ghost predicate IsLongestRun(hit: seq<int>, s: int, e: int)
  {
    IsRun(hit, s, e) && 2 <= e - s &&
    (forall s', e' :: IsRun(hit, s', e') ==> e' - s' <= e - s) &&
    (forall s', e' :: IsRun(hit, s', e') && s' < s ==> e' - s' < e - s)
  }

  /** End of the maximal run that starts at `s`. */
  function RunEnd(hit: seq<int>, s: nat): (e: nat)
    requires s < |hit|
    ensures s < e <= |hit|
    decreases |hit| - s
  {
    if s + 1 < |hit| && hit[s] + 1 == hit[s + 1] then RunEnd(hit, s + 1) else s + 1
  }

  /** The longest maximal run among those starting at `s` or later; the earliest on ties. */
  function BestFrom(hit: seq<int>, s: nat): (b: (nat, nat))
    requires s <= |hit|
    ensures s <= b.0 <= b.1 <= |hit|
    decreases |hit| - s
  {
    if s == |hit| then (s, s)
    else
      var b := BestFrom(hit, s + 1);
      var e := RunEnd(hit, s);
      if e - s >= b.1 - b.0 then (s, e) else b
  }

  /** Reference definition of `longest_seq`: the best run if it has two entries, else empty. */
  function LongestRun(hit: seq<int>): seq<int>
  {
    var b := BestFrom(hit, 0);
    if b.1 - b.0 >= 2 then hit[b.0..b.1] else []
  }

  lemma {:induction false} RunEndMaximal(hit: seq<int>, s: nat)
    requires s < |hit|
    ensures IsRun(hit, s, RunEnd(hit, s))
    ensures forall e :: IsRun(hit, s, e) ==> e <= RunEnd(hit, s)
    decreases |hit| - s
  {
    if s + 1 < |hit| && hit[s] + 1 == hit[s + 1] {
      RunEndMaximal(hit, s + 1);
      forall e | IsRun(hit, s, e) ensures e <= RunEnd(hit, s) {
        if e > s + 1 {
          assert IsRun(hit, s + 1, e);
        }
      }
    } else {
      forall e | IsRun(hit, s, e) ensures e <= s + 1 {
      }
    }
  }

  lemma {:induction false} BestFromIsBest(hit: seq<int>, s: nat)
    requires s <= |hit|
    ensures IsRun(hit, BestFrom(hit, s).0, BestFrom(hit, s).1)
    ensures forall s', e' :: IsRun(hit, s', e') && s <= s' ==>
      e' - s' <= BestFrom(hit, s).1 - BestFrom(hit, s).0
    ensures forall s', e' :: IsRun(hit, s', e') && s <= s' < BestFrom(hit, s).0 ==>
      e' - s' < BestFrom(hit, s).1 - BestFrom(hit, s).0
    decreases |hit| - s
  {
    if s < |hit| {
      BestFromIsBest(hit, s + 1);
      RunEndMaximal(hit, s);
      var b := BestFrom(hit, s + 1);
      var e := RunEnd(hit, s);
      forall s', e' | IsRun(hit, s', e') && s == s'
        ensures e' - s' <= e - s
      {
      }
    }
  }

  /** Runs of two or more entries exist exactly when some adjacent pair is consecutive. */
  lemma {:induction false} RunOfTwo(hit: seq<int>)
    ensures HasStep(hit) <==> exists s, e :: IsRun(hit, s, e) && 2 <= e - s
  {
    if HasStep(hit) {
      var i :| 0 <= i < |hit| - 1 && hit[i] + 1 == hit[i + 1];
      assert IsRun(hit, i, i + 2);
    }
    if exists s, e :: IsRun(hit, s, e) && 2 <= e - s {
      var s, e :| IsRun(hit, s, e) && 2 <= e - s;
      assert hit[s] + 1 == hit[s + 1];
    }
  }

  /**
   * `LongestRun` is empty exactly when no adjacent pair is consecutive, and
   * otherwise is the longest run, the earliest on ties.
   */
  lemma {:induction false} LongestRunIsLongestEarliest(hit: seq<int>)
    ensures !HasStep(hit) ==> LongestRun(hit) == []
    ensures HasStep(hit) ==>
      exists s, e :: IsLongestRun(hit, s, e) && LongestRun(hit) == hit[s..e]
  {
    var b := BestFrom(hit, 0);
    BestFromIsBest(hit, 0);
    RunOfTwo(hit);
    if HasStep(hit) {
      var s, e :| IsRun(hit, s, e) && 2 <= e - s;
      assert IsLongestRun(hit, b.0, b.1);
    }
  }

  /**
   * The state of a left-to-right scan over `hit[..j]`: the run ending at `j`
   * has `cur` entries and cannot be extended to the left; no run seen so far is
   * longer than `longest`; and unless `longest` is still one, `hit[start..end]`
   * is a run of `longest` entries that every earlier-starting run seen so far
   * falls short of.
   */
  ghost predicate Scanned(hit: seq<int>, j: nat, cur: nat, longest: nat, start: nat, end: nat)
  {
    && 1 <= cur <= j <= |hit|
    && IsRun(hit, j - cur, j) && (j - cur == 0 || hit[j - cur - 1] + 1 != hit[j - cur])
    && 1 <= longest
    && (forall s', e' :: IsRun(hit, s', e') && e' <= j ==> e' - s' <= longest)
    && (longest >= 2 ==> end - start == longest && IsRun(hit, start, end) && end <= j)
    && (longest >= 2 ==> forall s', e' :: IsRun(hit, s', e') && e' <= j && s' < start ==> e' - s' < longest)
  }

  /**
   * One step of the scan keeps its state: the run ending at `j + 1` grows or
   * restarts, and a run longer than the best so far replaces it.
   */
  lemma {:induction false} ScanStep(hit: seq<int>, j: nat, cur: nat, longest: nat, start: nat, end: nat,
                                    cur': nat, longest': nat, start': nat, end': nat)
    requires Scanned(hit, j, cur, longest, start, end) && j < |hit|
    requires cur' == if hit[j - 1] + 1 == hit[j] then cur + 1 else 1
    requires if cur' > longest then longest' == cur' && start' == j + 1 - cur' && end' == j + 1
             else longest' == longest && start' == start && end' == end
    ensures Scanned(hit, j + 1, cur', longest', start', end')
  {
  }

  /**
   * What a left-to-right scan ends with determines `LongestRun`: if no run is
   * longer than `longest`, and either `longest` is one and nothing was
   * recorded, or `hit[start..end]` is a run of `longest` entries that every
   * earlier-starting run falls short of, then that slice is `LongestRun(hit)`.
   */
  lemma {:induction false} ScanFindsLongestRun(hit: seq<int>, start: int, end: int, longest: int)
    requires 1 <= longest
    requires forall s', e' :: IsRun(hit, s', e') ==> e' - s' <= longest
    requires longest == 1 ==> start == 0 && end == 0
    requires longest >= 2 ==> end - start == longest && IsRun(hit, start, end)
    requires longest >= 2 ==> forall s', e' :: IsRun(hit, s', e') && s' < start ==> e' - s' < longest
    ensures 0 <= start <= end <= |hit| && hit[start..end] == LongestRun(hit)
  {
    RunOfTwo(hit);
    LongestRunIsLongestEarliest(hit);
    if HasStep(hit) {
      var s, e :| IsLongestRun(hit, s, e) && LongestRun(hit) == hit[s..e];
      assert IsLongestRun(hit, start, end);
      LongestRunUnique(hit, s, e, start, end);
    }
  }

  /** At most one slice is the longest-earliest run. */
  lemma {:induction false} LongestRunUnique(hit: seq<int>, s1: int, e1: int, s2: int, e2: int)
    requires IsLongestRun(hit, s1, e1) && IsLongestRun(hit, s2, e2)
    ensures s1 == s2 && e1 == e2
  {
  }

  /**
   * What a caller may rely on about a non-empty `LongestRun`: it is a slice of
   * its input of at least two entries whose neighbours step up by one.
   */
  lemma {:induction false} LongestRunShape(hit: seq<int>)
    requires LongestRun(hit) != []
    ensures 2 <= |LongestRun(hit)|
    ensures forall k :: 0 <= k < |LongestRun(hit)| - 1 ==>
      LongestRun(hit)[k] + 1 == LongestRun(hit)[k + 1]
    ensures forall k :: 0 <= k < |LongestRun(hit)| ==> LongestRun(hit)[k] in hit
  {
    var b := BestFrom(hit, 0);
    BestFromIsBest(hit, 0);
    var r := LongestRun(hit);
    assert r == hit[b.0..b.1];
    forall k | 0 <= k < |r| - 1 ensures r[k] + 1 == r[k + 1] {
      assert r[k] == hit[b.0 + k] && r[k + 1] == hit[b.0 + k + 1];
    }
    forall k | 0 <= k < |r| ensures r[k] in hit {
      assert r[k] == hit[b.0 + k];
    }
  }

  /** A list that steps up by one throughout, with two or more entries, is its own longest run. */
  lemma {:induction false} ConsecutiveIsLongestRun(hit: seq<int>)
    requires |hit| >= 2 && forall k :: 0 <= k < |hit| - 1 ==> hit[k] + 1 == hit[k + 1]
    ensures LongestRun(hit) == hit
  {
    LongestRunIsLongestEarliest(hit);
    assert hit[0] + 1 == hit[1];
    var s, e :| IsLongestRun(hit, s, e) && LongestRun(hit) == hit[s..e];
    assert IsLongestRun(hit, 0, |hit|);
    LongestRunUnique(hit, s, e, 0, |hit|);
    assert hit[0..|hit|] == hit;
  }
}
