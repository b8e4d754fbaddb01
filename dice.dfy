/**
 * The pure half of DiceSet in classes.js: counting faces, summing them, detecting
 * straights and the 13 category values a set of faces is worth.
 * Faces are plain integers: a Die compares and adds through valueOf().
 */
module Dice {
  import opened Boxes

  /** A server-side roll: five faces, each between 1 and 6. */
  predicate IsRoll(faces: seq<int>)
  {
    |faces| == 5 && forall i :: 0 <= i < |faces| ==> 1 <= faces[i] <= 6
  }

  /** DiceSet.count(n): how many dice show face n. */
  function Count(faces: seq<int>, n: int): (c: nat)
    ensures c == multiset(faces)[n]
  {
    if faces == [] then 0
    else
      assert faces == [faces[0]] + faces[1..];
      (if faces[0] == n then 1 else 0) + Count(faces[1..], n)
  }

  /** DiceSet.sum(): the sum of all faces. */
  function Sum(faces: seq<int>): int
  {
    if faces == [] then 0 else faces[0] + Sum(faces[1..])
  }

  /** DiceSet.sum(n): the sum of the faces equal to n. */
  function SumOf(faces: seq<int>, n: int): int
  {
    if faces == [] then 0 else (if faces[0] == n then faces[0] else 0) + SumOf(faces[1..], n)
  }

  /** DiceSet.straight(large). */
  function Straight(faces: seq<int>, large: bool): bool
  {
    if large then
      Count(faces, 2) == 1 && Count(faces, 3) == 1 && Count(faces, 4) == 1 && Count(faces, 5) == 1
      && (Count(faces, 1) == 1 || Count(faces, 6) == 1)
    else
      Count(faces, 3) >= 1 && Count(faces, 4) >= 1
      && ((Count(faces, 1) >= 1 && Count(faces, 2) >= 1)
          || (Count(faces, 2) >= 1 && Count(faces, 5) >= 1)
          || (Count(faces, 5) >= 1 && Count(faces, 6) >= 1))
  }

  /** `[1, 2, 3, 4, 5, 6].map(n => this.count(n))`. */
  function Counts(faces: seq<int>): seq<nat>
  {
    [Count(faces, 1), Count(faces, 2), Count(faces, 3), Count(faces, 4), Count(faces, 5), Count(faces, 6)]
  }

  /** `counts.some(c => c >= k)`. */
  predicate AnyAtLeast(counts: seq<nat>, k: nat)
  {
    exists i :: 0 <= i < |counts| && counts[i] >= k
  }

  /** `counts.some(c => c == k)`. */
  predicate AnyEqual(counts: seq<nat>, k: nat)
  {
    exists i :: 0 <= i < |counts| && counts[i] == k
  }

  /** The object DiceSet.values returns: one number per box. */
  datatype Values = Values(s1: int, s2: int, s3: int, s4: int, s5: int, s6: int,
                           k3: int, k4: int, fh: int, ss: int, ls: int, k5: int, ch: int)
  {
    /** `values[box]`. */
    function Get(b: Box): int
    {
      match b
      case S1 => s1 case S2 => s2 case S3 => s3 case S4 => s4 case S5 => s5 case S6 => s6
      case K3 => k3 case K4 => k4 case FH => fh case SS => ss case LS => ls case K5 => k5
      case CH => ch
    }
  }

  /** The getter DiceSet.values, recomputed from the faces on every read. */
  function ValuesOf(faces: seq<int>): Values
  {
    var counts := Counts(faces);
    Values(
      SumOf(faces, 1), SumOf(faces, 2), SumOf(faces, 3),
      SumOf(faces, 4), SumOf(faces, 5), SumOf(faces, 6),
      if AnyAtLeast(counts, 3) then Sum(faces) else 0,
      if AnyAtLeast(counts, 4) then Sum(faces) else 0,
      if AnyEqual(counts, 1) then 0 else 25,
      if Straight(faces, false) then 30 else 0,
      if Straight(faces, true) then 40 else 0,
      if AnyEqual(counts, 5) then 50 else 0,
      Sum(faces))
  }

  // ---------------------------------------------------------------- counting facts

  lemma {:induction false} SumOfIsFaceTimesCount(faces: seq<int>, n: int)
    ensures SumOf(faces, n) == n * Count(faces, n)
  {
    if faces != [] {
      SumOfIsFaceTimesCount(faces[1..], n);
      if faces[0] == n {
        calc {
          SumOf(faces, n);
          n + n * Count(faces[1..], n);
          n * (1 + Count(faces[1..], n));
          n * Count(faces, n);
        }
      }
    }
  }

  lemma {:induction false} SumByFace(faces: seq<int>)
    requires forall i :: 0 <= i < |faces| ==> 1 <= faces[i] <= 6
    ensures Sum(faces) == SumOf(faces, 1) + SumOf(faces, 2) + SumOf(faces, 3)
                          + SumOf(faces, 4) + SumOf(faces, 5) + SumOf(faces, 6)
  {
    if faces != [] {
      SumByFace(faces[1..]);
    }
  }

  lemma {:induction false} CountsAddUp(faces: seq<int>)
    requires forall i :: 0 <= i < |faces| ==> 1 <= faces[i] <= 6
    ensures Count(faces, 1) + Count(faces, 2) + Count(faces, 3)
            + Count(faces, 4) + Count(faces, 5) + Count(faces, 6) == |faces|
  {
    if faces != [] {
      CountsAddUp(faces[1..]);
    }
  }

  /** A face that is counted shows on some die. */
  lemma CountedFaceShows(faces: seq<int>, n: int)
    requires Count(faces, n) >= 1
    ensures exists i :: 0 <= i < |faces| && faces[i] == n
  {
    assert n in multiset(faces);
    assert n in faces;
  }

  /** Every die's face is counted at least once. */
  lemma FaceIsCounted(faces: seq<int>, i: int)
    requires 0 <= i < |faces|
    ensures Count(faces, faces[i]) >= 1
  {
    assert faces[i] in multiset(faces);
  }

  /** A face counted on every die is the face of every die. */
  lemma {:induction false} CountAllMeansAllEqual(faces: seq<int>, n: int)
    requires Count(faces, n) == |faces|
    ensures forall i :: 0 <= i < |faces| ==> faces[i] == n
  {
    if faces != [] {
      assert Count(faces[1..], n) <= |faces[1..]| by {
        assert multiset(faces[1..])[n] <= |multiset(faces[1..])|;
      }
      CountAllMeansAllEqual(faces[1..], n);
      forall i | 0 <= i < |faces| ensures faces[i] == n {
        if i > 0 { assert faces[i] == faces[1..][i - 1]; }
      }
    }
  }

  // ---------------------------------------------------------------- the categories

  /** `sN` is N times the number of dice showing N. */
  lemma UpperIsFaceTimesCount(faces: seq<int>, n: int)
    requires 1 <= n <= 6
    ensures ValuesOf(faces).Get(Upper(n).value) == n * Count(faces, n)
  {
    SumOfIsFaceTimesCount(faces, n);
  }

  /** Chance is the sum of the dice, which is also the sum of the six upper boxes. */
  lemma ChanceIsUpperSum(faces: seq<int>)
    requires forall i :: 0 <= i < |faces| ==> 1 <= faces[i] <= 6
    ensures var v := ValuesOf(faces);
            v.ch == Sum(faces) == v.s1 + v.s2 + v.s3 + v.s4 + v.s5 + v.s6
  {
    SumByFace(faces);
  }

  /** Full house scores 25 exactly when no die shows a face of its own. */
  lemma FullHouseIffNoSingleton(faces: seq<int>)
    requires IsRoll(faces)
    ensures ValuesOf(faces).fh == 25 <==> forall i :: 0 <= i < 5 ==> Count(faces, faces[i]) >= 2
    ensures ValuesOf(faces).fh == 0 || ValuesOf(faces).fh == 25
  {
    var counts := Counts(faces);
    if AnyEqual(counts, 1) {
      var j :| 0 <= j < 6 && counts[j] == 1;
      CountedFaceShows(faces, j + 1);
      var i :| 0 <= i < |faces| && faces[i] == j + 1;
      assert Count(faces, faces[i]) == 1;
    } else {
      forall i | 0 <= i < 5 ensures Count(faces, faces[i]) >= 2 {
        FaceIsCounted(faces, i);
        assert counts[faces[i] - 1] == Count(faces, faces[i]);
      }
    }
  }

  /** Six face counts adding up to five with no count of one: five of a kind, or a three and a two. */
  lemma NoSingletonShapes(c: seq<nat>)
    requires |c| == 6 && c[0] + c[1] + c[2] + c[3] + c[4] + c[5] == 5
    ensures !AnyEqual(c, 1) <==> AnyEqual(c, 5) || (AnyEqual(c, 3) && AnyEqual(c, 2))
  {
    if !AnyEqual(c, 1) && !AnyEqual(c, 5) {
      assert forall j :: 0 <= j < 6 ==> c[j] != 1 && c[j] != 5;
    }
  }

  /** `counts.some(c => c == k)` over the six faces: some face shows on exactly k dice. */
  lemma AnyEqualIsSomeFace(faces: seq<int>, k: nat)
    ensures AnyEqual(Counts(faces), k) <==> exists n :: 1 <= n <= 6 && Count(faces, n) == k
  {
    var c := Counts(faces);
    if AnyEqual(c, k) {
      var j :| 0 <= j < 6 && c[j] == k;
      assert Count(faces, j + 1) == k;
    }
    if exists n :: 1 <= n <= 6 && Count(faces, n) == k {
      var n :| 1 <= n <= 6 && Count(faces, n) == k;
      assert c[n - 1] == k;
    }
  }

  /** So a full house is five of a kind, or three of one face and two of another. */
  lemma FullHouseShapes(faces: seq<int>)
    requires IsRoll(faces)
    ensures ValuesOf(faces).fh == 25 <==>
              (exists n :: 1 <= n <= 6 && Count(faces, n) == 5)
              || ((exists n :: 1 <= n <= 6 && Count(faces, n) == 3) && (exists m :: 1 <= m <= 6 && Count(faces, m) == 2))
  {
    CountsAddUp(faces);
    var c := Counts(faces);
    assert ValuesOf(faces).fh == if AnyEqual(c, 1) then 0 else 25;
    NoSingletonShapes(c);
    AnyEqualIsSomeFace(faces, 5);
    AnyEqualIsSomeFace(faces, 3);
    AnyEqualIsSomeFace(faces, 2);
  }

  lemma {:induction false} AllEqualCountsAll(faces: seq<int>, n: int)
    requires forall i :: 0 <= i < |faces| ==> faces[i] == n
    ensures Count(faces, n) == |faces|
  {
    if faces != [] {
      AllEqualCountsAll(faces[1..], n);
    }
  }

  /** Five of a kind scores 50 exactly when all five dice show the same face. */
  lemma FiveOfAKindIffAllEqual(faces: seq<int>)
    requires IsRoll(faces)
    ensures ValuesOf(faces).k5 == 50 <==> forall i :: 0 <= i < 5 ==> faces[i] == faces[0]
    ensures ValuesOf(faces).k5 == 0 || ValuesOf(faces).k5 == 50
  {
    var c := Counts(faces);
    assert ValuesOf(faces).k5 == if AnyEqual(c, 5) then 50 else 0;
    if AnyEqual(c, 5) {
      var j :| 0 <= j < 6 && c[j] == 5;
      CountAllMeansAllEqual(faces, j + 1);
    }
    if forall i :: 0 <= i < 5 ==> faces[i] == faces[0] {
      AllEqualCountsAll(faces, faces[0]);
      assert c[faces[0] - 1] == 5;
    }
  }

  /** `counts.some(c => c >= k)` holds exactly when some face from 1 to 6 shows at least k times. */
  lemma AnyAtLeastIsSomeFace(faces: seq<int>, k: nat)
    ensures AnyAtLeast(Counts(faces), k) <==> exists n :: 1 <= n <= 6 && Count(faces, n) >= k
  {
    var c := Counts(faces);
    if AnyAtLeast(c, k) {
      var j :| 0 <= j < 6 && c[j] >= k;
      assert Count(faces, j + 1) >= k;
    }
    if exists n :: 1 <= n <= 6 && Count(faces, n) >= k {
      var n :| 1 <= n <= 6 && Count(faces, n) >= k;
      assert c[n - 1] >= k;
    }
  }

  /** `k3` is the dice sum when some face shows three times or more, otherwise 0; `k4` likewise with four. */
  lemma KindsIffCount(faces: seq<int>)
    ensures ValuesOf(faces).k3 == if exists n :: 1 <= n <= 6 && Count(faces, n) >= 3 then Sum(faces) else 0
    ensures ValuesOf(faces).k4 == if exists n :: 1 <= n <= 6 && Count(faces, n) >= 4 then Sum(faces) else 0
  {
    AnyAtLeastIsSomeFace(faces, 3);
    AnyAtLeastIsSomeFace(faces, 4);
  }

  /** The kind categories nest: four of a kind is also three of a kind, five of a kind is all of them and a full house. */
  lemma KindsNest(faces: seq<int>)
    requires IsRoll(faces)
    ensures var v := ValuesOf(faces);
            && (v.k3 == 0 || v.k3 == Sum(faces))
            && (v.k4 != 0 ==> v.k3 == v.k4)
            && (v.k5 != 0 ==> v.k3 == v.k4 == v.ch && v.fh == 25)
  {
    CountsAddUp(faces);
    KindCountsNest(Counts(faces));
  }

  /** For six face counts adding up to five dice: a count of 4 is also one of 3, and a count of 5 leaves no singleton. */
  lemma KindCountsNest(counts: seq<nat>)
    requires |counts| == 6 && counts[0] + counts[1] + counts[2] + counts[3] + counts[4] + counts[5] == 5
    ensures AnyAtLeast(counts, 4) ==> AnyAtLeast(counts, 3)
    ensures AnyEqual(counts, 5) ==> AnyAtLeast(counts, 4) && !AnyEqual(counts, 1)
  {
    if AnyAtLeast(counts, 4) {
      var j :| 0 <= j < 6 && counts[j] >= 4;
      assert counts[j] >= 3;
    }
    if AnyEqual(counts, 5) {
      var j :| 0 <= j < 6 && counts[j] == 5;
      assert counts[j] >= 4;
      assert forall k :: 0 <= k < 6 && k != j ==> counts[k] == 0;
    }
  }

  /** Four dice in a run: face s and the three faces above it all show. */
  predicate RunFrom(faces: seq<int>, s: int)
  {
    s in faces && s + 1 in faces && s + 2 in faces && s + 3 in faces
  }

  /** A small straight scores 30 exactly when the dice hold 1-2-3-4, 2-3-4-5 or 3-4-5-6. */
  lemma SmallStraightIffRun(faces: seq<int>)
    ensures ValuesOf(faces).ss == 30 <==> RunFrom(faces, 1) || RunFrom(faces, 2) || RunFrom(faces, 3)
    ensures ValuesOf(faces).ss == 0 || ValuesOf(faces).ss == 30
  {
    forall n ensures Count(faces, n) >= 1 <==> n in faces {
      assert n in faces <==> n in multiset(faces);
    }
  }

  /** Five dice between 1 and 6 with 2, 3, 4 and 5 once each and one of 1 or 6 are one of the two runs. */
  lemma LargeStraightShapes(m: multiset<int>)
    requires forall x :: m[x] != 0 ==> 1 <= x <= 6
    requires m[1] + m[2] + m[3] + m[4] + m[5] + m[6] == 5
    ensures (m[2] == 1 && m[3] == 1 && m[4] == 1 && m[5] == 1 && (m[1] == 1 || m[6] == 1)) <==>
              m == multiset{1, 2, 3, 4, 5} || m == multiset{2, 3, 4, 5, 6}
  {
    if m[2] == 1 && m[3] == 1 && m[4] == 1 && m[5] == 1 {
      if m[1] == 1 {
        assert forall x :: m[x] == multiset{1, 2, 3, 4, 5}[x];
      } else if m[6] == 1 {
        assert forall x :: m[x] == multiset{2, 3, 4, 5, 6}[x];
      }
    }
  }

  /** A large straight scores 40 exactly when the dice are 1-2-3-4-5 or 2-3-4-5-6 in some order. */
  lemma LargeStraightIffRun(faces: seq<int>)
    requires IsRoll(faces)
    ensures ValuesOf(faces).ls == 40 <==>
              multiset(faces) == multiset{1, 2, 3, 4, 5} || multiset(faces) == multiset{2, 3, 4, 5, 6}
    ensures ValuesOf(faces).ls == 0 || ValuesOf(faces).ls == 40
  {
    var m := multiset(faces);
    forall x | m[x] != 0 ensures 1 <= x <= 6 {
      assert x in faces;
    }
    CountsAddUp(faces);
    LargeStraightShapes(m);
  }

  /** A large straight always holds a small one. */
  lemma LargeImpliesSmall(faces: seq<int>)
    ensures ValuesOf(faces).ls != 0 ==> ValuesOf(faces).ss != 0
  {
  }
}
