/**
 * The Score class of classes.js as a value: which boxes hold a number, the b5
 * bonus, the derived subtotals, Score.set and the scoring rule of Player.tally.
 */
module Sheet {
  import opened Basics
  import opened Boxes
  import opened Dice

  /** The fields of a Score object. A box missing from `filled` holds null. */
  datatype ScoreState = ScoreState(filled: map<Box, int>, b5: int)
  {
    /** `this[box]`, with null as None. */
    function Slot(b: Box): Option<int>
    {
      if b in filled then Some(filled[b]) else None
    }

    /** `this[box] || 0`: what a box adds to a subtotal. */
    function Points(b: Box): int
    {
      if b in filled then filled[b] else 0
    }

    /** Score.sub1: the upper section. */
    function Sub1(): int
    {
      Points(S1) + Points(S2) + Points(S3) + Points(S4) + Points(S5) + Points(S6)
    }

    /** Score.sub2: the lower section. */
    function Sub2(): int
    {
      Points(K3) + Points(K4) + Points(FH) + Points(SS) + Points(LS) + Points(K5) + Points(CH)
    }

    /** Score.bonus. */
    function Bonus(): int
    {
      if Sub1() >= 63 then 35 else 0
    }

    /** Score.total. */
    function Total(): int
    {
      Sub1() + Sub2() + Bonus() + b5
    }

    /** Player.empty: how many boxes still hold null. */
    function Empty(): nat
    {
      Open(filled, Order)
    }
  }

  /** `boxes.reduce((a, box) => a + (score[box] === null ? 1 : 0), 0)`. */
  function Open(filled: map<Box, int>, boxes: seq<Box>): nat
  {
    if boxes == [] then 0 else (if boxes[0] in filled then 0 else 1) + Open(filled, boxes[1..])
  }

  /** `new Score()`: every box null, b5 zero. */
  const NewScore: ScoreState := ScoreState(map[], 0)

  /**
   * Score.set(box, value): lower-cases the box, rejects a name that is not a box
   * (RangeError) and then a value that is not a number (TypeError); otherwise it
   * overwrites that one box, whether or not it already held a number.
   */
  function SetBox(s: ScoreState, name: string, value: Option<int>): (r: Result<ScoreState, Error>)
    ensures r.Ok? <==> Parse(name).Some? && value.Some?
    ensures r == Err(InvalidBox) <==> forall b: Box :: Key(b) != Lower(name)
    ensures r == Err(InvalidValue) <==> Parse(name).Some? && value.None?
    ensures r.Ok? ==> r.value.b5 == s.b5 && r.value.Slot(Parse(name).value) == value
    ensures r.Ok? ==> forall b :: b != Parse(name).value ==> r.value.Slot(b) == s.Slot(b)
  {
    match Parse(name)
    case None => Err(InvalidBox)
    case Some(b) =>
      if value.None? then Err(InvalidValue) else Ok(s.(filled := s.filled[b := value.value]))
  }

  /**
   * What Player.tally leaves in the score: the box must exist and be null; the
   * box then receives the dice's value for it, and b5 gains 100 when a non-zero
   * five of a kind is already banked and the dice are five of a kind again.
   * The forced 30/40 for ss/ls inside that branch is overwritten by the final
   * set, so only the final value appears here (Engine.Player.Tally runs both).
   */
  function TallyScore(s: ScoreState, name: string, faces: seq<int>): Result<ScoreState, Error>
  {
    match Parse(name)
    case None => Err(InvalidBox)
    case Some(b) =>
      if b in s.filled then Err(AlreadyScored)
      else
        var v := ValuesOf(faces);
        var bonus := K5 in s.filled && v.k5 != 0 && s.filled[K5] != 0;
        Ok(ScoreState(s.filled[b := v.Get(b)], if bonus then s.b5 + 100 else s.b5))
  }

  // ---------------------------------------------------------------- lemmas

  lemma {:induction false} OpenAfterFill(filled: map<Box, int>, boxes: seq<Box>, b: Box, v: int)
    requires b !in filled
    requires forall i, j :: 0 <= i < j < |boxes| ==> boxes[i] != boxes[j]
    ensures Open(filled[b := v], boxes) == Open(filled, boxes) - (if b in boxes then 1 else 0)
  {
    if boxes != [] {
      OpenAfterFill(filled, boxes[1..], b, v);
      if boxes[0] == b {
        assert b !in boxes[1..];
      }
    }
  }

  lemma OrderIsDistinct()
    ensures forall i, j :: 0 <= i < j < |Order| ==> Order[i] != Order[j]
  {
  }

  lemma {:induction false} NothingFilledAllOpen(boxes: seq<Box>)
    ensures Open(map[], boxes) == |boxes|
  {
    if boxes != [] {
      NothingFilledAllOpen(boxes[1..]);
    }
  }

  /** A fresh score has all 13 boxes open and totals 0. */
  lemma NewScoreIsAllOpen()
    ensures NewScore.Empty() == 13 && NewScore.Total() == 0
  {
    NothingFilledAllOpen(Order);
    NothingFilledTotalsB5(NewScore);
  }

  lemma NothingFilledTotalsB5(s: ScoreState)
    requires s.filled == map[]
    ensures s.Total() == s.b5
  {
  }

  /** Tally fails, changing nothing, exactly for an unknown or already scored box; otherwise it fills that box with the dice's value and nothing else, so one fewer box is open. */
  lemma TallyOutcome(s: ScoreState, name: string, faces: seq<int>)
    ensures TallyScore(s, name, faces) == Err(InvalidBox) <==> forall b: Box :: Key(b) != Lower(name)
    ensures TallyScore(s, name, faces) == Err(AlreadyScored) <==> Parse(name).Some? && s.Slot(Parse(name).value).Some?
    ensures TallyScore(s, name, faces).Ok? <==> Parse(name).Some? && s.Slot(Parse(name).value).None?
    ensures TallyScore(s, name, faces).Ok? ==>
              var b := Parse(name).value;
              var t := TallyScore(s, name, faces).value;
              && t.Slot(b) == Some(ValuesOf(faces).Get(b))
              && (forall c :: c != b ==> t.Slot(c) == s.Slot(c))
              && t.Empty() == s.Empty() - 1
  {
    var r := TallyScore(s, name, faces);
    if r.Ok? {
      var b := Parse(name).value;
      AllHoldsEveryBox(b);
      OrderIsDistinct();
      OpenAfterFill(s.filled, Order, b, ValuesOf(faces).Get(b));
    }
  }

  /** The b5 rule: a tally adds 0 or 100, and 100 exactly when a non-zero k5 is banked and all five dice match. */
  lemma TallyFiveBonus(s: ScoreState, name: string, faces: seq<int>)
    requires IsRoll(faces)
    requires TallyScore(s, name, faces).Ok?
    ensures var t := TallyScore(s, name, faces).value;
            && (t.b5 == s.b5 || t.b5 == s.b5 + 100)
            && (t.b5 == s.b5 + 100 <==>
                  s.Slot(K5).Some? && s.Slot(K5).value != 0 && forall i :: 0 <= i < 5 ==> faces[i] == faces[0])
  {
    FiveOfAKindIffAllEqual(faces);
  }

  /** With faces 1..6 every category is worth zero or more. */
  lemma ValuesNonNegative(faces: seq<int>, b: Box)
    requires IsRoll(faces)
    ensures ValuesOf(faces).Get(b) >= 0
  {
    ChanceIsUpperSum(faces);
    forall n | 1 <= n <= 6 ensures SumOf(faces, n) >= 0 {
      SumOfIsFaceTimesCount(faces, n);
    }
  }

  /** Filling an open box adds its number to exactly one of the two subtotals. */
  lemma FillAddsToOneSection(s: ScoreState, b: Box, v: int, b5: int)
    requires b !in s.filled
    ensures var t := ScoreState(s.filled[b := v], b5);
            (t.Sub1() == s.Sub1() + v && t.Sub2() == s.Sub2()) || (t.Sub1() == s.Sub1() && t.Sub2() == s.Sub2() + v)
  {
    var t := ScoreState(s.filled[b := v], b5);
    match b
    case S1 | S2 | S3 | S4 | S5 | S6 =>
      assert t.Sub1() == s.Sub1() + v && t.Sub2() == s.Sub2();
    case K3 | K4 | FH | SS | LS | K5 | CH =>
      assert t.Sub1() == s.Sub1() && t.Sub2() == s.Sub2() + v;
  }

  /** Filling an open box with a non-negative number, and not lowering b5, never lowers the total: the bonus only switches on. */
  lemma FillNeverLowersTotal(s: ScoreState, b: Box, v: int, b5: int)
    requires b !in s.filled && v >= 0 && b5 >= s.b5
    ensures ScoreState(s.filled[b := v], b5).Total() >= s.Total() + v
  {
    FillAddsToOneSection(s, b, v, b5);
  }

  /** So tallying a real roll never lowers a player's total. */
  lemma TallyNeverLowersTotal(s: ScoreState, name: string, faces: seq<int>)
    requires IsRoll(faces)
    requires TallyScore(s, name, faces).Ok?
    ensures TallyScore(s, name, faces).value.Total() >= s.Total() + ValuesOf(faces).Get(Parse(name).value)
  {
    var b := Parse(name).value;
    var v := ValuesOf(faces);
    ValuesNonNegative(faces, b);
    var b5 := if K5 in s.filled && v.k5 != 0 && s.filled[K5] != 0 then s.b5 + 100 else s.b5;
    assert TallyScore(s, name, faces) == Ok(ScoreState(s.filled[b := v.Get(b)], b5));
    FillNeverLowersTotal(s, b, v.Get(b), b5);
  }

  /** Subtotals read a null box as 0: writing 0 into an open box leaves every total as it was. */
  lemma NullCountsAsZero(s: ScoreState, b: Box)
    requires b !in s.filled
    ensures var t := ScoreState(s.filled[b := 0], s.b5);
            t.Sub1() == s.Sub1() && t.Sub2() == s.Sub2() && t.Bonus() == s.Bonus() && t.Total() == s.Total()
  {
    var t := ScoreState(s.filled[b := 0], s.b5);
    assert forall c :: t.Points(c) == s.Points(c);
  }

  // ---------------------------------------------------------------- steps of Player.tally

  /** Score.set on a valid box name writes that box. */
  lemma SetBoxWrites(s: ScoreState, name: string, b: Box, x: int)
    requires Parse(name) == Some(b)
    ensures SetBox(s, name, Some(x)) == Ok(s.(filled := s.filled[b := x]))
  {
  }

  /** Tally of an open box when the five-of-a-kind branch is not taken. */
  lemma TallyWithoutBonus(s: ScoreState, name: string, faces: seq<int>, b: Box)
    requires Parse(name) == Some(b) && b !in s.filled
    requires !(K5 in s.filled && ValuesOf(faces).k5 != 0)
    ensures TallyScore(s, name, faces) == Ok(ScoreState(s.filled[b := ValuesOf(faces).Get(b)], s.b5))
  {
  }

  /** Tally of an open box in the five-of-a-kind branch: 100 more only when the 50 was scored. */
  lemma TallyWithBonus(s: ScoreState, name: string, faces: seq<int>, b: Box)
    requires Parse(name) == Some(b) && b !in s.filled
    requires K5 in s.filled && ValuesOf(faces).k5 != 0
    ensures TallyScore(s, name, faces) ==
              Ok(ScoreState(s.filled[b := ValuesOf(faces).Get(b)], if s.filled[K5] != 0 then s.b5 + 100 else s.b5))
  {
  }

  // ---------------------------------------------------------------- snapshots

  /** A JSON object as it crosses the socket: property names to numbers or null. */
  type Data = map<string, Option<int>>

  /** The JSON a server Score becomes in a gameUpdate: the 13 boxes and b5. */
  function Serialized(s: ScoreState): Data
  {
    map["s1" := s.Slot(S1), "s2" := s.Slot(S2), "s3" := s.Slot(S3), "s4" := s.Slot(S4),
        "s5" := s.Slot(S5), "s6" := s.Slot(S6), "k3" := s.Slot(K3), "k4" := s.Slot(K4),
        "fh" := s.Slot(FH), "ss" := s.Slot(SS), "ls" := s.Slot(LS), "k5" := s.Slot(K5),
        "ch" := s.Slot(CH), "b5" := Some(s.b5)]
  }

  lemma SerializedHoldsEveryBox(s: ScoreState, b: Box)
    ensures Key(b) in Serialized(s) && Serialized(s)[Key(b)] == s.Slot(b)
    ensures "b5" in Serialized(s) && Serialized(s)["b5"] == Some(s.b5)
  {
    match b
    case S1 => case S2 => case S3 => case S4 => case S5 => case S6 =>
    case K3 => case K4 => case FH => case SS => case LS => case K5 => case CH =>
  }

  /** `new Score(data)` on the server: `data[box] || null` turns a 0 into null; `data.b5 ?? 0`. */
  function ScoreFromData(data: Data): ScoreState
  {
    ScoreState(
      map b | b in Order && Key(b) in data && data[Key(b)].Some? && data[Key(b)].value != 0 :: data[Key(b)].value,
      if "b5" in data && data["b5"].Some? then data["b5"].value else 0)
  }

  /** The server constructor keeps every non-zero box of the data it is given and drops the zeros. */
  lemma RebuildKeepsNonZero(s: ScoreState, d: Data)
    requires forall b :: Key(b) in d && d[Key(b)] == s.Slot(b)
    requires "b5" in d && d["b5"] == Some(s.b5)
    ensures ScoreFromData(d) == s <==> forall b :: b in s.filled ==> s.filled[b] != 0
  {
    var t := ScoreFromData(d);
    forall b
      ensures (b in t.filled <==> b in s.filled && s.filled[b] != 0)
      ensures b in t.filled ==> t.filled[b] == s.filled[b]
    {
      AllHoldsEveryBox(b);
    }
    if forall b :: b in s.filled ==> s.filled[b] != 0 {
      assert t.filled == s.filled;
    } else {
      var b :| b in s.filled && s.filled[b] == 0;
      assert b !in t.filled;
    }
  }

  /** Rebuilding a score from its own JSON gives it back exactly when no box holds a 0. */
  lemma ServerRebuildDropsZeros(s: ScoreState)
    ensures ScoreFromData(Serialized(s)) == s <==> forall b :: b in s.filled ==> s.filled[b] != 0
  {
    forall b ensures Key(b) in Serialized(s) && Serialized(s)[Key(b)] == s.Slot(b) {
      SerializedHoldsEveryBox(s, b);
    }
    SerializedHoldsEveryBox(s, S1);
    RebuildKeepsNonZero(s, Serialized(s));
  }
}
