/**
 * The browser's copy of the game in public/javascripts/roll5.js: its own DiceSet and
 * Score classes, rebuilt from every game update the server sends, and the guards that
 * decide what the page shows and which clicks reach the server.
 */
module Client {
  import opened Basics
  import opened Boxes
  import opened Dice
  import opened Sheet
  import opened Turns
  import opened App

  // ---------------------------------------------------------------- DiceSet

  /** `new Die(data)`: the die the data describes, or an unlocked die showing 0 when there is none. */
  function ClientDie(data: Option<DieState>): DieState
  {
    if data.Some? then data.value else DieState(0, false)
  }

  /** `new DiceSet(data)`: always five dice, the i-th built from `data?.[i]`. */
  function ClientDice(data: Option<seq<DieState>>): (r: seq<DieState>)
    ensures |r| == 5
  {
    seq(5, i requires 0 <= i < 5 => ClientDie(if data.Some? && i < |data.value| then Some(data.value[i]) else None))
  }

  /** `this.reduce((a, c) => a + (c == n ? 1 : 0), a)`, folding from the left. */
  function CountFrom(faces: seq<int>, n: int, a: nat): nat
  {
    if faces == [] then a else CountFrom(faces[1..], n, a + if faces[0] == n then 1 else 0)
  }

  /** `this.reduce((a, c) => a + c, a)`. */
  function SumFrom(faces: seq<int>, a: int): int
  {
    if faces == [] then a else SumFrom(faces[1..], a + faces[0])
  }

  /** `this.reduce((a, c) => a + (c == n ? c : 0), a)`. */
  function SumOfFrom(faces: seq<int>, n: int, a: int): int
  {
    if faces == [] then a else SumOfFrom(faces[1..], n, a + if faces[0] == n then faces[0] else 0)
  }

  /** The client's DiceSet.count(n). */
  function ClientCount(faces: seq<int>, n: int): nat
  {
    CountFrom(faces, n, 0)
  }

  /** The client's DiceSet.sum(n): every face when n is undefined, else the faces equal to n. */
  function ClientSum(faces: seq<int>, n: Option<int>): int
  {
    if n.None? then SumFrom(faces, 0) else SumOfFrom(faces, n.value, 0)
  }

  /** The client's DiceSet.straight(large). */
  function ClientStraight(faces: seq<int>, large: bool): bool
  {
    if large then
      ClientCount(faces, 2) == 1 && ClientCount(faces, 3) == 1 && ClientCount(faces, 4) == 1
      && ClientCount(faces, 5) == 1 && (ClientCount(faces, 1) == 1 || ClientCount(faces, 6) == 1)
    else
      ClientCount(faces, 3) >= 1 && ClientCount(faces, 4) >= 1
      && ((ClientCount(faces, 1) >= 1 && ClientCount(faces, 2) >= 1)
          || (ClientCount(faces, 2) >= 1 && ClientCount(faces, 5) >= 1)
          || (ClientCount(faces, 5) >= 1 && ClientCount(faces, 6) >= 1))
  }

  /** `[1, 2, 3, 4, 5, 6].map(n => this.count(n))` on the client. */
  function ClientCounts(faces: seq<int>): seq<nat>
  {
    seq(6, i requires 0 <= i < 6 => ClientCount(faces, i + 1))
  }

  /** The client's DiceSet.values getter. */
  function ClientValues(faces: seq<int>): Values
  {
    var counts := ClientCounts(faces);
    Values(
      ClientSum(faces, Some(1)), ClientSum(faces, Some(2)), ClientSum(faces, Some(3)),
      ClientSum(faces, Some(4)), ClientSum(faces, Some(5)), ClientSum(faces, Some(6)),
      if AnyAtLeast(counts, 3) then ClientSum(faces, None) else 0,
      if AnyAtLeast(counts, 4) then ClientSum(faces, None) else 0,
      if AnyEqual(counts, 1) then 0 else 25,
      if ClientStraight(faces, false) then 30 else 0,
      if ClientStraight(faces, true) then 40 else 0,
      if AnyEqual(counts, 5) then 50 else 0,
      ClientSum(faces, None))
  }

  // ---------------------------------------------------------------- the folds agree with the server

  lemma {:induction false} CountFromAdds(faces: seq<int>, n: int, a: nat)
    ensures CountFrom(faces, n, a) == a + Count(faces, n)
  {
    if faces != [] {
      CountFromAdds(faces[1..], n, a + if faces[0] == n then 1 else 0);
    }
  }

  lemma {:induction false} SumFromAdds(faces: seq<int>, a: int)
    ensures SumFrom(faces, a) == a + Sum(faces)
  {
    if faces != [] {
      SumFromAdds(faces[1..], a + faces[0]);
    }
  }

  lemma {:induction false} SumOfFromAdds(faces: seq<int>, n: int, a: int)
    ensures SumOfFrom(faces, n, a) == a + SumOf(faces, n)
  {
    if faces != [] {
      SumOfFromAdds(faces[1..], n, a + if faces[0] == n then faces[0] else 0);
    }
  }

  /** The client's count and sums are the server's, for any faces at all. */
  lemma ClientReductionsAgree(faces: seq<int>)
    ensures forall n :: ClientCount(faces, n) == Count(faces, n)
    ensures ClientSum(faces, None) == Sum(faces)
    ensures forall n :: ClientSum(faces, Some(n)) == SumOf(faces, n)
  {
    forall n ensures ClientCount(faces, n) == Count(faces, n) {
      CountFromAdds(faces, n, 0);
    }
    forall n ensures ClientSum(faces, Some(n)) == SumOf(faces, n) {
      SumOfFromAdds(faces, n, 0);
    }
    SumFromAdds(faces, 0);
  }

  /** For the same faces the browser shows exactly the 13 values the server scores. */
  lemma ClientValuesAgree(faces: seq<int>)
    ensures ClientValues(faces) == ValuesOf(faces)
  {
    ClientReductionsAgree(faces);
    assert ClientCounts(faces) == Counts(faces);
  }

  /** The dice of a game update arrive unchanged, so the page shows the server's values for them. */
  lemma ClientDiceOfServerGame(g: GameState)
    requires Good(g)
    ensures ClientDice(Some(g.dice)) == g.dice
    ensures ClientValues(Faces(ClientDice(Some(g.dice)))) == ValuesOf(Faces(g.dice))
  {
    assert ClientDice(Some(g.dice)) == g.dice;
    ClientValuesAgree(Faces(g.dice));
  }

  /** Dice that all show 0 add up to 0 and show no other face. */
  lemma {:induction false} ZerosCountNothing(faces: seq<int>, n: int)
    requires forall i :: 0 <= i < |faces| ==> faces[i] == 0
    requires n != 0
    ensures Sum(faces) == 0 && Count(faces, n) == 0 && SumOf(faces, n) == 0
  {
    if faces != [] {
      ZerosCountNothing(faces[1..], n);
    }
  }

  /** Five dice showing 0: no face from 1 to 6 is counted, so every category but fh is 0. */
  lemma ZeroFacesValues(faces: seq<int>)
    requires faces == [0, 0, 0, 0, 0]
    ensures ValuesOf(faces) == Values(0, 0, 0, 0, 0, 0, 0, 0, 25, 0, 0, 0, 0)
  {
    forall n | 1 <= n <= 6 ensures Count(faces, n) == 0 && SumOf(faces, n) == 0 && Sum(faces) == 0 {
      ZerosCountNothing(faces, n);
    }
    var counts := Counts(faces);
    assert counts == [0, 0, 0, 0, 0, 0];
    assert !AnyAtLeast(counts, 3) && !AnyAtLeast(counts, 4) && !AnyEqual(counts, 1) && !AnyEqual(counts, 5);
  }

  /** A DiceSet built without data shows five zeros, and the page's values for it are all 0 but fh, which is 25. */
  lemma DefaultDiceValues()
    ensures Faces(ClientDice(None)) == [0, 0, 0, 0, 0]
    ensures ClientValues(Faces(ClientDice(None))) == Values(0, 0, 0, 0, 0, 0, 0, 0, 25, 0, 0, 0, 0)
  {
    var faces := Faces(ClientDice(None));
    var none: Option<seq<DieState>> := None;
    forall k | 0 <= k < 5 ensures ClientDice(none)[k] == DieState(0, false) && faces[k] == 0 {
      assert ClientDie(None) == DieState(0, false);
    }
    assert faces == [0, 0, 0, 0, 0];
    ClientValuesAgree(faces);
    ZeroFacesValues(faces);
  }

  // ---------------------------------------------------------------- Score

  /** The client Score: only the properties the data carried, each `data[box] ?? null`. */
  datatype ClientScore = ClientScore(props: map<string, Option<int>>)
  {
    /** `(this[key] || 0)`: a missing or null property adds nothing. */
    function Points(key: string): int
    {
      if key in props && props[key].Some? then props[key].value else 0
    }

    /** The client's Score.sub1. */
    function Sub1(): int
    {
      Points(Key(S1)) + Points(Key(S2)) + Points(Key(S3)) + Points(Key(S4)) + Points(Key(S5)) + Points(Key(S6))
    }

    /** The client's Score.sub2. */
    function Sub2(): int
    {
      Points(Key(K3)) + Points(Key(K4)) + Points(Key(FH)) + Points(Key(SS)) + Points(Key(LS))
      + Points(Key(K5)) + Points(Key(CH))
    }

    /** The client's Score.bonus. */
    function Bonus(): int
    {
      if Sub1() >= 63 then 35 else 0
    }

    /**
     * The client's Score.total. `this.b5` is added as it is: a null b5 adds 0, while
     * data without a b5 leaves it undefined and the total NaN (None here).
     */
    function Total(): Option<int>
    {
      if "b5" in props then Some(Sub1() + Sub2() + Bonus() + Points("b5")) else None
    }
  }

  /** `new Score(data)` in the browser: a copy of every key of the data, null staying null. */
  function ClientScoreOf(data: Data): ClientScore
  {
    ClientScore(map k | k in data :: data[k])
  }

  /** Rebuilt in the browser, every box of a server score keeps its slot, a scored 0 included. */
  lemma ClientKeepsEveryBox(s: ScoreState)
    ensures forall b: Box :: Key(b) in ClientScoreOf(Serialized(s)).props
                             && ClientScoreOf(Serialized(s)).props[Key(b)] == s.Slot(b)
    ensures "b5" in ClientScoreOf(Serialized(s)).props && ClientScoreOf(Serialized(s)).props["b5"] == Some(s.b5)
  {
    forall b: Box ensures Key(b) in Serialized(s) && Serialized(s)[Key(b)] == s.Slot(b) {
      SerializedHoldsEveryBox(s, b);
    }
    SerializedHoldsEveryBox(s, S1);
  }

  /** A client score holding the server's slots has the server's two subtotals. */
  lemma SameSlotsSameSums(c: ClientScore, s: ScoreState)
    requires forall b: Box :: Key(b) in c.props && c.props[Key(b)] == s.Slot(b)
    ensures c.Sub1() == s.Sub1() && c.Sub2() == s.Sub2()
  {
    forall b: Box ensures c.Points(Key(b)) == s.Points(b) {
    }
  }

  /** Equal subtotals and an equal b5 give an equal bonus and total. */
  lemma SameSumsSameTotal(c: ClientScore, s: ScoreState)
    requires c.Sub1() == s.Sub1() && c.Sub2() == s.Sub2()
    requires "b5" in c.props && c.props["b5"] == Some(s.b5)
    ensures c.Bonus() == s.Bonus() && c.Total() == Some(s.Total())
  {
  }

  /** The browser's subtotals, bonus and total for a server score are the server's own. */
  lemma ClientTotalsAgree(s: ScoreState)
    ensures var c := ClientScoreOf(Serialized(s));
            c.Sub1() == s.Sub1() && c.Sub2() == s.Sub2() && c.Bonus() == s.Bonus() && c.Total() == Some(s.Total())
  {
    var c := ClientScoreOf(Serialized(s));
    ClientKeepsEveryBox(s);
    SameSlotsSameSums(c, s);
    SameSumsSameTotal(c, s);
  }

  /** A box scored 0 reads back as 0 in the browser, while the server's constructor turns it into null. */
  lemma ZeroSurvivesOnlyOnClient(s: ScoreState, b: Box)
    requires b in s.filled && s.filled[b] == 0
    ensures ClientScoreOf(Serialized(s)).props[Key(b)] == Some(0)
    ensures ScoreFromData(Serialized(s)).Slot(b) == None
  {
    ClientKeepsEveryBox(s);
    SerializedHoldsEveryBox(s, b);
  }

  // ---------------------------------------------------------------- the page

  datatype ClientPlayer = ClientPlayer(name: string, id: Id, score: ClientScore)

  /** `gameState` after a game update: the game with its dice and scores rebuilt as client objects. */
  datatype View = View(players: seq<ClientPlayer>, current: Option<Id>, dice: seq<DieState>, rolls: int)

  /** The gameUpdate handler's rebuilding of the game the server sent. */
  function Received(g: GameState): View
  {
    View(seq(|g.players|, i requires 0 <= i < |g.players| =>
                ClientPlayer(g.players[i].name, g.players[i].id, ClientScoreOf(Serialized(g.players[i].score)))),
         g.current, ClientDice(Some(g.dice)), g.rolls)
  }

  /** `button({ id, key })`: nothing unless it is the viewer's turn, on the viewer's own row, after a roll; else the box's value. */
  function Button(v: View, me: Id, row: Id, b: Box): Option<int>
  {
    if v.current != Some(me) || row != me || v.rolls == 0 then None
    else Some(ClientValues(Faces(v.dice)).Get(b))
  }

  /** The die click handler emits toggleDie only on the viewer's turn after a roll. */
  predicate ToggleSent(v: View, me: Id)
  {
    v.current == Some(me) && v.rolls != 0
  }

  /** The roll click handler emits roll only on the viewer's turn with rolls other than 3. */
  predicate RollSent(v: View, me: Id)
  {
    v.current == Some(me) && v.rolls != 3
  }

  /** The roll button is enabled on the viewer's turn while fewer than 3 rolls are used. */
  predicate RollEnabled(v: View, me: Id)
  {
    v.current == Some(me) && v.rolls < 3
  }

  /** The rolls-remaining display. */
  function RollsRemaining(v: View): int
  {
    3 - v.rolls
  }

  /** The number on a score button is exactly what the server writes into that box when it is clicked. */
  lemma ButtonShowsTally(g: GameState, me: Id, i: nat, b: Box)
    requires Good(g) && g.current == Some(me) && g.rolls != 0 && Find(Ids(g.players), Some(me)) == Some(i)
    requires g.players[i].score.Slot(b).None?
    ensures Button(Received(g), me, me, b).Some?
    ensures ScoreTurn(g, Key(b)).Ok?
    ensures ScoreTurn(g, Key(b)).value.players[i].score.Slot(b) == Button(Received(g), me, me, b)
    ensures forall row: Id :: row != me ==> Button(Received(g), me, row, b).None?
  {
    ClientDiceOfServerGame(g);
    ParseKey(b);
    ScoreTurnOutcome(g, Key(b));
  }

  /** Before the first roll of a turn the page offers no score button, and a score the server would ignore. */
  lemma NoButtonBeforeRoll(g: GameState, me: Id, row: Id, b: Box, name: string)
    requires g.rolls == 0
    ensures Button(Received(g), me, row, b).None?
    ensures ScoreTurn(g, name) == Ok(g)
  {
    ScoreBeforeRollIgnored(g, name);
  }

  /** A toggle the page sends for one of the five dice is applied by the server; the page holds back toggles before the first roll, which the server would apply. */
  lemma ToggleSentIsApplied(t: Table, room: string, me: Id, die: int)
    requires room in t && Good(t[room]) && 0 <= die < 5
    ensures ToggleSent(Received(t[room]), me) ==> ToggleRoom(t, room, me, die).reply == Applied
    ensures ToggleRoom(t, room, me, die).reply == Applied <==> ToggleSent(Received(t[room]), me) || (t[room].current == Some(me) && t[room].rolls == 0)
  {
  }

  /** On a game in a reachable state the roll button is enabled exactly when a click sends a roll, and that roll uses one of the remaining rolls. */
  lemma RollSentUsesARoll(t: Table, room: string, me: Id, faces: seq<int>)
    requires room in t && Good(t[room]) && |faces| == 5
    ensures RollEnabled(Received(t[room]), me) <==> RollSent(Received(t[room]), me)
    ensures 0 <= RollsRemaining(Received(t[room])) <= 3
    ensures RollSent(Received(t[room]), me) ==>
              RollRoom(t, room, me, faces).reply == Applied
              && RollRoom(t, room, me, faces).table[room].rolls == t[room].rolls + 1
              && RollsRemaining(Received(RollRoom(t, room, me, faces).table[room])) == RollsRemaining(Received(t[room])) - 1
  {
    RollTurnOutcome(t[room], faces);
  }
}
