/**
 * The game objects of classes.js as classes whose methods update their fields in
 * place. Each class reads back as a value of module Turns or Sheet through State(),
 * and each method is proved to change that value exactly as the matching function
 * there says.
 */
module Engine {
  import opened Basics
  import opened Boxes
  import opened Dice
  import opened Sheet
  import opened Turns

  /** One die: its face and whether it is held between rolls. */
  class Die {
    var value: int
    var locked: bool

    /** `new Die()`: a random face, not held. */
    constructor (face: int)
      ensures State() == DieState(face, false)
    {
      value := face;
      locked := false;
    }

    function State(): DieState
      reads this
    {
      DieState(value, locked)
    }

    /** Die.roll; `face` is the draw `Math.ceil(Math.random() * 6)`. */
    method Roll(face: int)
      modifies this
      ensures State() == RollDie(old(State()), face)
    {
      if !locked {
        value := face;
      }
    }

    /** Die.toggle. */
    method Toggle()
      modifies this
      ensures value == old(value) && locked == !old(locked)
    {
      locked := !locked;
    }
  }

  /** The faces and locks of a sequence of dice. */
  function DiceStates(ds: seq<Die>): (r: seq<DieState>)
    reads ds
    ensures |r| == |ds| && forall i :: 0 <= i < |ds| ==> r[i] == ds[i].State()
  {
    seq(|ds|, i requires 0 <= i < |ds| reads ds => ds[i].State())
  }

  /** DiceSet: an array of five distinct Die objects that is never reassigned. */
  class DiceSet {
    const dice: seq<Die>

    ghost predicate Valid()
    {
      |dice| == 5 && forall i, j :: 0 <= i < j < |dice| ==> dice[i] != dice[j]
    }

    /** `new DiceSet()`: five fresh dice showing the given draws. */
    constructor (faces: seq<int>)
      requires |faces| == 5
      ensures Valid() && fresh(set i | 0 <= i < |dice| :: dice[i])
      ensures State() == FreshDice(faces)
    {
      var ds: seq<Die> := [];
      for i := 0 to 5
        invariant |ds| == i
        invariant forall k :: 0 <= k < i ==> fresh(ds[k]) && ds[k].State() == DieState(faces[k], false)
        invariant forall k, l :: 0 <= k < l < i ==> ds[k] != ds[l]
      {
        var d := new Die(faces[i]);
        ds := ds + [d];
      }
      dice := ds;
    }

    function State(): seq<DieState>
      reads dice
    {
      DiceStates(dice)
    }

    function Faces(): seq<int>
      reads dice
    {
      Turns.Faces(State())
    }

    /** DiceSet.roll: each die in turn is rolled with its own draw. */
    method Roll(faces: seq<int>)
      requires Valid() && |faces| == 5
      modifies dice
      ensures State() == RollDice(old(State()), faces)
    {
      for i := 0 to 5
        invariant forall k :: 0 <= k < i ==> dice[k].State() == RollDie(old(dice[k].State()), faces[k])
        invariant forall k :: i <= k < 5 ==> dice[k].State() == old(dice[k].State())
      {
        dice[i].Roll(faces[i]);
      }
    }
  }

  /** A score sheet: the boxes written so far (a missing box is null) and the five-of-a-kind bonus. */
  class Score {
    var filled: map<Box, int>
    var b5: int

    /** `new Score(data)`: a falsy box (missing, null or 0) becomes null; b5 defaults to 0 only when missing or null. */
    constructor (data: Data)
      ensures State() == ScoreFromData(data)
    {
      var s := ScoreFromData(data);
      filled := s.filled;
      b5 := s.b5;
    }

    function State(): ScoreState
      reads this
    {
      ScoreState(filled, b5)
    }

    /** Score.set; `value` is the result of `parseInt(value, 10)`, None standing for NaN. */
    method Set(box: string, value: Option<int>) returns (err: Option<Error>)
      modifies this
      ensures match SetBox(old(State()), box, value)
              case Ok(s) => err.None? && State() == s
              case Err(e) => err == Some(e) && State() == old(State())
    {
      var b := Parse(box);
      if b.None? {
        return Some(InvalidBox);
      }
      if value.None? {
        return Some(InvalidValue);
      }
      filled := filled[b.value := value.value];
      return None;
    }
  }

  /** A player: name, id and the sheet object never change; the sheet is updated in place. */
  class Player {
    const name: string
    const id: Id
    const score: Score

    /** `new Player({ name, id })` with an empty sheet. */
    constructor (name: string, id: Id)
      ensures fresh(score) && State() == PlayerState(name, id, NewScore)
    {
      this.name := name;
      this.id := id;
      score := new Score(map[]);
    }

    function State(): PlayerState
      reads score
    {
      PlayerState(name, id, score.State())
    }

    /** Player.empty: how many boxes are still null. */
    function Empty(): nat
      reads score
    {
      score.State().Empty()
    }

    /**
     * The joker branch of Player.tally: once the upper box of the rolled face and
     * both kinds are filled, a small or large straight box is first set to its fixed
     * 30 or 40. Nothing else is touched. It runs only for five of a kind, so the sum
     * is five times one face and `Sum(faces) / 5` is exact, as JavaScript's division is.
     */
    method Joker(box: string, b: Box, faces: seq<int>)
      requires Parse(box) == Some(b) && ValuesOf(faces).k5 != 0
      modifies score
      ensures score.b5 == old(score.b5)
      ensures score.filled == old(score.filled)
              || ((b == SS || b == LS) && score.filled == old(score.filled)[b := if b == SS then 30 else 40])
    {
      var group := Sum(faces) / 5;
      var top := Upper(group);
      var topFull := top.None? || top.value in score.filled;
      var ksFull := K3 in score.filled && K4 in score.filled;
      if topFull && ksFull && (b == SS || b == LS) {
        ghost var s1 := score.State();
        var joker := if b == SS then 30 else 40;
        var e := score.Set(box, Some(joker));
        SetBoxWrites(s1, box, b, joker);
      }
    }

    /**
     * Player.tally as written: reject an unknown or filled box, then write the box
     * (with the five-of-a-kind bonus and the joker branch on the way).
     */
    method Tally(box: string, dice: DiceSet) returns (err: Option<Error>)
      requires dice.Valid()
      modifies score
      ensures match TallyScore(old(score.State()), box, dice.Faces())
              case Ok(s) => err.None? && score.State() == s
              case Err(e) => err == Some(e) && score.State() == old(score.State())
    {
      var b := Parse(box);
      if b.None? {
        return Some(InvalidBox);
      }
      if b.value in score.filled {
        return Some(AlreadyScored);
      }
      var faces := dice.Faces();
      Commit(box, b.value, faces);
      assert dice.Faces() == faces;
      return None;
    }

    /**
     * The writes of Player.tally for an open box: on a second five-of-a-kind add the
     * 100 bonus and run the joker branch, whose fixed 30/40 is immediately
     * overwritten by the plain category value.
     */
    method Commit(box: string, b: Box, faces: seq<int>)
      requires Parse(box) == Some(b) && b !in score.filled
      modifies score
      ensures TallyScore(old(score.State()), box, faces) == Ok(score.State())
    {
      var v := ValuesOf(faces);
      ghost var s0 := score.State();
      var x := v.Get(b);
      if K5 in score.filled && v.k5 != 0 {
        if score.filled[K5] != 0 {
          score.b5 := score.b5 + 100;
        }
        ghost var b5 := score.b5;
        Joker(box, b, faces);
        Overwrite(s0.filled, b, if b == SS then 30 else 40, x);
        ghost var s2 := score.State();
        assert s2.b5 == b5 && s2.filled[b := x] == s0.filled[b := x];
        var e := score.Set(box, Some(x));
        SetBoxWrites(s2, box, b, x);
        TallyWithBonus(s0, box, faces, b);
      } else {
        var e := score.Set(box, Some(x));
        SetBoxWrites(s0, box, b, x);
        TallyWithoutBonus(s0, box, faces, b);
      }
    }
  }

  /** Writing a key twice keeps the second value only. */
  lemma Overwrite<K, V>(m: map<K, V>, k: K, first: V, second: V)
    ensures m[k := first][k := second] == m[k := second]
  {
  }

  /** The player states of a roster. */
  function Snapshot(ps: seq<Player>): (r: seq<PlayerState>)
    reads set p | p in ps :: p.score
    ensures |r| == |ps| && forall i :: 0 <= i < |ps| ==> r[i] == ps[i].State()
  {
    seq(|ps|, i requires 0 <= i < |ps| reads set p | p in ps :: p.score => ps[i].State())
  }

  /** A roster whose players and sheets were not touched reads back the same. */
  twostate lemma SnapshotFramed(ps: seq<Player>)
    requires forall p :: p in ps ==> unchanged(p.score)
    ensures Snapshot(ps) == old(Snapshot(ps))
  {
    assert forall i :: 0 <= i < |ps| ==> ps[i] in ps;
  }

  /** The ids of a roster; ids are constant, so this reads no state. */
  function IdsOf(ps: seq<Player>): (r: seq<Id>)
    ensures |r| == |ps| && forall i :: 0 <= i < |ps| ==> r[i] == ps[i].id
  {
    seq(|ps|, i requires 0 <= i < |ps| => ps[i].id)
  }

  /** A game room. */
  class Roll5 {
    var players: seq<Player>
    var currentPlayer: Option<Id>
    const dice: DiceSet
    var rolls: int
    const id: string
    ghost var Repr: set<object>

    ghost predicate Valid()
      reads this, Repr
    {
      && this in Repr
      && dice.Valid()
      && (forall k :: 0 <= k < |dice.dice| ==> dice.dice[k] in Repr)
      && (forall p :: p in players ==> p in Repr && p.score in Repr)
      && (forall i, j :: 0 <= i < j < |players| ==> players[i].score != players[j].score)
    }

    function State(): GameState
      reads this, Repr
      requires Valid()
    {
      GameState(Snapshot(players), currentPlayer, dice.State(), rolls, id)
    }

    /** `new Roll5({ players: [first] })`: fresh dice, the first player on turn, rolls 1. */
    constructor (first: Player, faces: seq<int>, id: string)
      requires |faces| == 5
      ensures Valid() && fresh(Repr - {first, first.score})
      ensures State() == NewGame(first.State(), faces, id)
    {
      players := [first];
      currentPlayer := Some(first.id);
      var ds := new DiceSet(faces);
      dice := ds;
      rolls := 1;
      this.id := id;
      Repr := {this, first, first.score} + set k | 0 <= k < 5 :: ds.dice[k];
    }

    /** Unlocks every die (the loops at the head of Roll5.roll and the tail of Roll5.score). */
    method UnlockDice()
      requires Valid()
      modifies dice.dice
      ensures dice.State() == Unlock(old(dice.State()))
    {
      for i := 0 to 5
        invariant forall k :: 0 <= k < i ==> dice.dice[k].State() == old(dice.dice[k].State()).(locked := false)
        invariant forall k :: i <= k < 5 ==> dice.dice[k].State() == old(dice.dice[k].State())
      {
        dice.dice[i].locked := false;
      }
    }

    /** The end of Roll5.score: hand the turn on from the scorer at roster position `scorer`, reset rolls, unlock the dice. */
    method PassTurn(scorer: nat)
      requires Valid() && scorer < |players|
      modifies this, dice.dice
      ensures Valid() && Repr == old(Repr)
      ensures var g := old(State());
              State() == g.(current := Rotate(Ids(g.players), Where(HasOpenBox(g.players), Range(|g.players|)), scorer),
                            rolls := 0, dice := Unlock(g.dice))
    {
      ghost var g := State();
      var ps := Snapshot(players);
      var eligible := Where(HasOpenBox(ps), Range(|ps|));
      assert IdsOf(players) == Ids(ps);
      currentPlayer := Rotate(IdsOf(players), eligible, scorer);
      rolls := 0;
      UnlockDice();
      SnapshotFramed(players);
    }

    /** Roll5.roll; `faces` are the five draws. */
    method Roll(faces: seq<int>)
      requires Valid() && |faces| == 5
      modifies dice.dice, this
      ensures Valid() && Repr == old(Repr)
      ensures State() == RollTurn(old(State()), faces)
    {
      ghost var g := State();
      if rolls == 0 {
        UnlockDice();
      }
      ghost var unlocked := if g.rolls == 0 then Unlock(g.dice) else g.dice;
      assert dice.State() == unlocked;
      if rolls < 3 {
        dice.Roll(faces);
        rolls := rolls + 1;
      }
      SnapshotFramed(players);
      assert dice.State() == (if g.rolls < 3 then RollDice(unlocked, faces) else unlocked);
    }

    /** `player.tally(box, this.dice)` for the player at roster position `at`: only that player's sheet can change. */
    method TallyAt(at: nat, box: string) returns (err: Option<Error>)
      requires Valid() && at < |players|
      modifies players[at].score
      ensures Valid() && Repr == old(Repr)
      ensures var g := old(State());
              match TallyScore(g.players[at].score, box, Faces(g.dice))
              case Ok(s) => err.None? && State() == g.(players := g.players[at := g.players[at].(score := s)])
              case Err(e) => err == Some(e) && State() == g
    {
      ghost var g := State();
      var player := players[at];
      err := player.Tally(box, dice);
      assert forall j :: 0 <= j < |players| && j != at ==> unchanged(players[j].score);
      assert dice.State() == g.dice;
      if err.None? {
        assert Snapshot(players) == g.players[at := g.players[at].(score := player.score.State())];
      } else {
        assert Snapshot(players) == g.players;
      }
    }

    /** Roll5.score: any exception thrown by the lookup or the tally leaves the game as it was. */
    method Score(box: string) returns (err: Option<Error>)
      requires Valid()
      modifies Repr
      ensures Valid() && Repr == old(Repr)
      ensures match ScoreTurn(old(State()), box)
              case Ok(g) => err.None? && State() == g
              case Err(e) => err == Some(e) && State() == old(State())
    {
      ghost var g := State();
      if rolls == 0 {
        return None;
      }
      assert IdsOf(players) == Ids(g.players);
      var at := Find(IdsOf(players), currentPlayer);
      if at.None? {
        return Some(NoCurrentPlayer);
      }
      err := TallyAt(at.value, box);
      if err.Some? {
        return;
      }
      ScoreTurnTakes(g, box, at.value, State().players[at.value].score);
      PassTurn(at.value);
    }
  }
}
