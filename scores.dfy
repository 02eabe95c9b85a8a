/** Hand scores and their order. `evaluate_hand` returns a pair
    (category, tiebreaker list) and both odds engines compare such pairs with
    Python's built-in tuple and list comparison, which is lexicographic. */
module Scores {

  datatype Score = Score(category: int, tiebreakers: seq<int>)

  /** Python's `a < b` on lists of ints: the first differing position
      decides, and a proper prefix is smaller. */
  predicate SeqLess(a: seq<int>, b: seq<int>) {
    if a == [] then b != []
    else if b == [] then false
    else if a[0] != b[0] then a[0] < b[0]
    else SeqLess(a[1..], b[1..])
  }

  /** Python's `x < y` on (category, tiebreakers) tuples. */
  predicate Less(x: Score, y: Score) {
    x.category < y.category || (x.category == y.category && SeqLess(x.tiebreakers, y.tiebreakers))
  }

  lemma {:induction false} SeqLessIrreflexive(a: seq<int>)
    ensures !SeqLess(a, a)
  {
    if a != [] {
      SeqLessIrreflexive(a[1..]);
    }
  }

  lemma {:induction false} SeqLessTransitive(a: seq<int>, b: seq<int>, c: seq<int>)
    requires SeqLess(a, b) && SeqLess(b, c)
    ensures SeqLess(a, c)
  {
    if a != [] && b != [] && c != [] && a[0] == b[0] == c[0] {
      SeqLessTransitive(a[1..], b[1..], c[1..]);
    }
  }

  lemma {:induction false} SeqLessTotal(a: seq<int>, b: seq<int>)
    ensures SeqLess(a, b) || a == b || SeqLess(b, a)
  {
    if a != [] && b != [] && a[0] == b[0] {
      SeqLessTotal(a[1..], b[1..]);
      assert a == [a[0]] + a[1..] && b == [b[0]] + b[1..];
    }
  }

  /** The score order is a strict total order: irreflexive, transitive and
      total, so any two scores compare as less, equal or greater. */
  lemma LessIsStrictTotalOrder(x: Score, y: Score, z: Score)
    ensures !Less(x, x)
    ensures Less(x, y) && Less(y, z) ==> Less(x, z)
    ensures Less(x, y) || x == y || Less(y, x)
  {
    SeqLessIrreflexive(x.tiebreakers);
    if Less(x, y) && Less(y, z) && x.category == y.category == z.category {
      SeqLessTransitive(x.tiebreakers, y.tiebreakers, z.tiebreakers);
    }
    SeqLessTotal(x.tiebreakers, y.tiebreakers);
  }

  /** Python's `max(scores)`: scans left to right and keeps the running
      maximum, replacing it only by a strictly greater score. */
  function MaxScore(scores: seq<Score>): (m: Score)
    requires |scores| > 0
    ensures m in scores
    ensures forall x :: x in scores ==> !Less(m, x)
  {
    if |scores| == 1 then
      LessIsStrictTotalOrder(scores[0], scores[0], scores[0]);
      scores[0]
    else
      var init := scores[..|scores| - 1];
      var last := scores[|scores| - 1];
      var best := MaxScore(init);
      assert forall x :: x in scores ==> x in init || x == last;
      if Less(best, last) then
        assert forall x :: x in init ==> !Less(last, x) by {
          forall x | x in init ensures !Less(last, x) {
            LessIsStrictTotalOrder(best, last, x);
            LessIsStrictTotalOrder(last, last, last);
          }
        }
        LessIsStrictTotalOrder(last, last, last);
        last
      else
        best
  }

  /** A score that beats the maximum beats every score, and one that equals it
      is beaten by none. */
  lemma {:induction false} MaxScoreCompare(scores: seq<Score>, s: Score)
    requires |scores| > 0
    ensures Less(MaxScore(scores), s) <==> forall x :: x in scores ==> Less(x, s)
    ensures !Less(s, MaxScore(scores)) <==> forall x :: x in scores ==> !Less(s, x)
  {
    var m := MaxScore(scores);
    forall x | x in scores ensures Less(m, s) ==> Less(x, s) {
      LessIsStrictTotalOrder(x, m, s);
      if Less(m, s) && !Less(x, m) {
        LessIsStrictTotalOrder(m, x, s);
      }
    }
    forall x | x in scores ensures !Less(s, m) ==> !Less(s, x) {
      LessIsStrictTotalOrder(s, x, m);
      LessIsStrictTotalOrder(x, m, m);
    }
  }

  /** The position `max(items, key=...)` picks, given the items' scores: it
      scans left to right and moves only to a strictly greater score. */
  function ArgMax(scores: seq<Score>): (i: nat)
    requires |scores| > 0
    ensures i < |scores|
  {
    if |scores| == 1 then 0
    else
      var n := |scores| - 1;
      var i := ArgMax(scores[..n]);
      if Less(scores[i], scores[n]) then n else i
  }

  /** `ArgMax` picks the first position of a maximal score: nothing scores
      higher, and everything before it scores lower. */
  lemma {:induction false} ArgMaxIsFirstMaximum(scores: seq<Score>)
    requires |scores| > 0
    ensures forall j :: 0 <= j < |scores| ==> !Less(scores[ArgMax(scores)], scores[j])
    ensures forall j :: 0 <= j < ArgMax(scores) ==> Less(scores[j], scores[ArgMax(scores)])
  {
    if |scores| == 1 {
      LessIsStrictTotalOrder(scores[0], scores[0], scores[0]);
    } else {
      var n := |scores| - 1;
      var prefix := scores[..n];
      ArgMaxIsFirstMaximum(prefix);
      var i := ArgMax(prefix);
      if Less(scores[i], scores[n]) {
        forall j | 0 <= j < |scores| ensures !Less(scores[n], scores[j]) && (j < n ==> Less(scores[j], scores[n])) {
          LessIsStrictTotalOrder(scores[i], scores[n], scores[j]);
          LessIsStrictTotalOrder(scores[j], scores[i], scores[n]);
          LessIsStrictTotalOrder(scores[n], scores[n], scores[n]);
          if j < n {
            assert prefix[j] == scores[j];
          }
        }
      } else {
        forall j | 0 <= j < |scores| ensures !Less(scores[i], scores[j]) {
          if j < n {
            assert prefix[j] == scores[j];
          }
        }
        forall j | 0 <= j < i ensures Less(scores[j], scores[i]) {
          assert prefix[j] == scores[j];
        }
      }
    }
  }
}
