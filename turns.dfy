/**
 * The state of a Roll5 game as a value, and what Roll5.roll, Roll5.score, a die
 * toggle and a player's departure do to it. Engine.Roll5 and App.Rooms are
 * proved to update their objects exactly as these functions say.
 */
module Turns {
  import opened Basics
  import opened Boxes
  import opened Dice
  import opened Sheet

  datatype DieState = DieState(value: int, locked: bool)

  datatype PlayerState = PlayerState(name: string, id: Id, score: ScoreState)

  /** A Roll5 object: roster in join order, dice, whose turn it is (null once nobody can score), rolls taken, session id. */
  datatype GameState = GameState(players: seq<PlayerState>, current: Option<Id>, dice: seq<DieState>, rolls: int, id: string)

  function Faces(dice: seq<DieState>): seq<int>
  {
    seq(|dice|, i requires 0 <= i < |dice| => dice[i].value)
  }

  /** Die.roll: an unlocked die takes the new face, a locked one keeps its own. */
  function RollDie(d: DieState, face: int): DieState
  {
    if d.locked then d else d.(value := face)
  }

  /** DiceSet.roll: every die rolled, `faces` being the random draws. */
  function RollDice(dice: seq<DieState>, faces: seq<int>): seq<DieState>
    requires |faces| == |dice|
  {
    seq(|dice|, i requires 0 <= i < |dice| => RollDie(dice[i], faces[i]))
  }

  /** `die.locked = false` for every die. */
  function Unlock(dice: seq<DieState>): seq<DieState>
  {
    seq(|dice|, i requires 0 <= i < |dice| => dice[i].(locked := false))
  }

  /** `new DiceSet()`: five fresh unlocked dice with random faces. */
  function FreshDice(faces: seq<int>): seq<DieState>
  {
    seq(|faces|, i requires 0 <= i < |faces| => DieState(faces[i], false))
  }

  /** `new Roll5({ players: [first] })`: the first player holds the turn and `rolls` falls back to 1. */
  function NewGame(first: PlayerState, faces: seq<int>, id: string): GameState
  {
    GameState([first], Some(first.id), FreshDice(faces), 1, id)
  }

  /** Roll5.roll: at rolls == 0 unlock every die first; below 3 rolls roll and count it; otherwise nothing. */
  function RollTurn(g: GameState, faces: seq<int>): GameState
    requires |faces| == |g.dice|
  {
    var dice := if g.rolls == 0 then Unlock(g.dice) else g.dice;
    if g.rolls < 3 then g.(dice := RollDice(dice, faces), rolls := g.rolls + 1) else g.(dice := dice)
  }

  /** `game.dice[die].toggle()`: flips one lock; an index with no die throws a TypeError. */
  function ToggleDie(g: GameState, die: int): Result<GameState, Error>
  {
    if 0 <= die < |g.dice| then Ok(g.(dice := g.dice[die := g.dice[die].(locked := !g.dice[die].locked)]))
    else Err(NoSuchDie)
  }

  // ---------------------------------------------------------------- roster helpers

  function Ids(ps: seq<PlayerState>): seq<Id>
  {
    seq(|ps|, i requires 0 <= i < |ps| => ps[i].id)
  }

  /** `({ empty }) => empty > 0` for every roster position. */
  function HasOpenBox(ps: seq<PlayerState>): seq<bool>
  {
    seq(|ps|, i requires 0 <= i < |ps| => ps[i].score.Empty() > 0)
  }

  /** `p => p.id != socket.id` for every roster position. */
  function NotCaller(ids: seq<Id>, caller: Id): seq<bool>
  {
    seq(|ids|, i requires 0 <= i < |ids| => ids[i] != caller)
  }

  /** The roster positions 0 .. n-1. */
  function Range(n: nat): seq<nat>
  {
    seq(n, i requires 0 <= i < n => i)
  }

  predicate Increasing(s: seq<nat>)
  {
    forall i, j :: 0 <= i < j < |s| ==> s[i] < s[j]
  }

  /** `Array.prototype.filter` on roster positions: those of `among` whose flag is set, in the same order. */
  function Where(flags: seq<bool>, among: seq<nat>): (r: seq<nat>)
    requires forall k :: 0 <= k < |among| ==> among[k] < |flags|
    ensures forall k :: 0 <= k < |r| ==> r[k] < |flags|
  {
    if among == [] then [] else (if flags[among[0]] then [among[0]] else []) + Where(flags, among[1..])
  }

  /** The players at the given roster positions. */
  function Select(ps: seq<PlayerState>, at: seq<nat>): seq<PlayerState>
    requires forall k :: 0 <= k < |at| ==> at[k] < |ps|
  {
    seq(|at|, k requires 0 <= k < |at| => ps[at[k]])
  }

  /** `players.filter(p => p.id != caller)`, written directly on the players. */
  function Without(ps: seq<PlayerState>, caller: Id): seq<PlayerState>
  {
    if ps == [] then []
    else (if ps[0].id != caller then [ps[0]] else []) + Without(ps[1..], caller)
  }

  /** `players.find(({ id }) => id == who)`, as a roster position. */
  function Find(ids: seq<Id>, who: Option<Id>): (r: Option<nat>)
    ensures r.Some? ==> r.value < |ids| && Some(ids[r.value]) == who
    ensures r.Some? ==> forall j :: 0 <= j < r.value ==> Some(ids[j]) != who
    ensures r.None? ==> forall j :: 0 <= j < |ids| ==> Some(ids[j]) != who
  {
    if ids == [] then None
    else if Some(ids[0]) == who then Some(0)
    else match Find(ids[1..], who)
      case None => None
      case Some(k) => Some(k + 1)
  }

  /** `Array.prototype.indexOf`: first position of x, or -1. */
  function IndexOf(s: seq<nat>, x: int): (r: int)
    ensures -1 <= r < |s|
    ensures r == -1 <==> x !in s
    ensures r >= 0 ==> s[r] == x && forall j :: 0 <= j < r ==> s[j] != x
  {
    if s == [] then -1
    else if s[0] == x then 0
    else var k := IndexOf(s[1..], x); if k == -1 then -1 else k + 1
  }

  /** `eligible[(eligible.indexOf(player) + 1) % eligible.length]`, as a roster position. */
  function NextSeat(eligible: seq<nat>, who: int): nat
    requires eligible != []
  {
    eligible[(IndexOf(eligible, who) + 1) % |eligible|]
  }

  /** The turn hand-over of Roll5.score and of the disconnect handler: the next seat's id, or null when nobody is eligible. */
  function Rotate(ids: seq<Id>, eligible: seq<nat>, who: int): Option<Id>
    requires forall k :: 0 <= k < |eligible| ==> eligible[k] < |ids|
  {
    if eligible == [] then None else Some(ids[NextSeat(eligible, who)])
  }

  // ---------------------------------------------------------------- scoring a turn

  /**
   * Roll5.score(box): nothing before the first roll of a turn; otherwise tally the
   * current player's score (its exceptions propagate, leaving the game as it was),
   * hand the turn on among the players who still have an open box, reset rolls to 0
   * and unlock all dice.
   */
  function ScoreTurn(g: GameState, name: string): Result<GameState, Error>
  {
    if g.rolls == 0 then Ok(g)
    else match Find(Ids(g.players), g.current)
      case None => Err(NoCurrentPlayer)
      case Some(i) =>
        match TallyScore(g.players[i].score, name, Faces(g.dice))
        case Err(e) => Err(e)
        case Ok(s) =>
          var ps := g.players[i := g.players[i].(score := s)];
          var eligible := Where(HasOpenBox(ps), Range(|ps|));
          WhereBounded(HasOpenBox(ps), Range(|ps|));
          Ok(g.(players := ps, current := Rotate(Ids(ps), eligible, i), rolls := 0, dice := Unlock(g.dice)))
  }

  // ---------------------------------------------------------------- a player leaves

  /**
   * The body of the disconnect handler for one room (app.js): drop every roster
   * entry with the caller's id; None when nobody is left (the room is deleted).
   * If the caller held the turn, it passes among the remaining players with an
   * open box. The departed player was filtered out before `eligible.indexOf(player)`
   * runs, so that lookup always yields -1.
   */
  function Depart(g: GameState, caller: Id): Option<GameState>
  {
    var ids := Ids(g.players);
    var kept := Where(NotCaller(ids, caller), Range(|ids|));
    WhereBounded(NotCaller(ids, caller), Range(|ids|));
    if kept == [] then None
    else
      var players := Select(g.players, kept);
      if g.current == Some(caller) then
        var eligible := Where(HasOpenBox(g.players), kept);
        WhereBounded(HasOpenBox(g.players), kept);
        var player := Find(ids, Some(caller));
        Some(g.(players := players, current := Rotate(ids, eligible, if player.Some? then player.value else -1), rolls := 0))
      else
        Some(g.(players := players))
  }

  // ---------------------------------------------------------------- filter lemmas

  lemma {:induction false} WhereBounded(flags: seq<bool>, among: seq<nat>)
    requires forall k :: 0 <= k < |among| ==> among[k] < |flags|
    ensures forall k :: 0 <= k < |Where(flags, among)| ==> Where(flags, among)[k] < |flags|
    ensures forall x :: x in Where(flags, among) <==> x in among && x < |flags| && flags[x]
  {
    if among != [] {
      WhereBounded(flags, among[1..]);
      assert forall x :: x in among <==> x == among[0] || x in among[1..];
    }
  }

  lemma {:induction false} WhereIncreasing(flags: seq<bool>, among: seq<nat>)
    requires forall k :: 0 <= k < |among| ==> among[k] < |flags|
    requires Increasing(among)
    ensures Increasing(Where(flags, among))
  {
    if among != [] {
      WhereIncreasing(flags, among[1..]);
      WhereBounded(flags, among[1..]);
      var rest := Where(flags, among[1..]);
      forall k | 0 <= k < |rest| ensures among[0] < rest[k] {
        assert rest[k] in among[1..];
      }
    }
  }

  lemma RangeFacts(n: nat)
    ensures Increasing(Range(n)) && forall x :: x in Range(n) <==> 0 <= x < n
  {
    forall x | 0 <= x < n ensures x in Range(n) { assert Range(n)[x] == x; }
  }

  /** The players who can still score, in roster order. */
  lemma EligibleInOrder(ps: seq<PlayerState>)
    ensures var e := Where(HasOpenBox(ps), Range(|ps|));
            && Increasing(e)
            && (forall k :: 0 <= k < |e| ==> e[k] < |ps|)
            && (forall j :: j in e <==> 0 <= j < |ps| && HasOpenBox(ps)[j])
  {
    RangeFacts(|ps|);
    WhereBounded(HasOpenBox(ps), Range(|ps|));
    WhereIncreasing(HasOpenBox(ps), Range(|ps|));
  }

  // ---------------------------------------------------------------- the rotation

  /** `e` lists exactly the flagged positions, in increasing order. */
  ghost predicate Enumerates(e: seq<nat>, flags: seq<bool>)
  {
    && Increasing(e)
    && (forall k :: 0 <= k < |e| ==> e[k] < |flags|)
    && (forall j :: j in e <==> 0 <= j < |flags| && flags[j])
  }

  lemma IncreasingOrder(e: seq<nat>, a: int, b: int)
    requires Increasing(e) && 0 <= a < |e| && 0 <= b < |e|
    ensures e[a] < e[b] <==> a < b
    ensures e[a] == e[b] <==> a == b
  {
  }

  lemma ModBelow(a: int, n: int)
    requires 0 <= a < n
    ensures a % n == a
  {
  }

  /** No flagged position lies strictly between two neighbours of `e`. */
  lemma NothingBetween(flags: seq<bool>, e: seq<nat>, p: nat)
    requires Enumerates(e, flags) && p + 1 < |e|
    ensures forall k :: e[p] < k < e[p + 1] ==> !flags[k]
  {
    forall k | e[p] < k < e[p + 1] ensures k !in e {
      forall q | 0 <= q < |e| ensures e[q] != k {
        IncreasingOrder(e, q, p);
        IncreasingOrder(e, q, p + 1);
      }
    }
  }

  /** A flagged position after e[p] means e[p] is not the last entry. */
  lemma NotLast(flags: seq<bool>, e: seq<nat>, p: nat, k: int)
    requires Enumerates(e, flags) && p < |e|
    requires e[p] < k < |flags| && flags[k]
    ensures p + 1 < |e|
  {
    assert k in e;
    var q :| 0 <= q < |e| && e[q] == k;
    IncreasingOrder(e, p, q);
  }

  /** A flagged position after i, when i itself is flagged and some later position is. */
  lemma NextSeatFollows(flags: seq<bool>, e: seq<nat>, i: int)
    requires Enumerates(e, flags) && e != []
    requires 0 <= i < |flags| && flags[i]
    requires exists k :: i < k < |flags| && flags[k]
    ensures var j := NextSeat(e, i);
            i < j < |flags| && flags[j] && forall k :: i < k < j ==> !flags[k]
  {
    assert i in e;
    var p := IndexOf(e, i);
    var k0 :| i < k0 < |flags| && flags[k0];
    NotLast(flags, e, p, k0);
    ModBelow(p + 1, |e|);
    assert NextSeat(e, i) == e[p + 1];
    IncreasingOrder(e, p, p + 1);
    assert e[p + 1] in e;
    NothingBetween(flags, e, p);
  }

  /** The first flagged position, when i is not flagged. */
  lemma NextSeatFromUnflagged(flags: seq<bool>, e: seq<nat>, i: int)
    requires Enumerates(e, flags) && e != []
    requires !(0 <= i < |flags| && flags[i])
    ensures NextSeat(e, i) == e[0]
  {
    assert i !in e;
    assert IndexOf(e, i) == -1;
    ModBelow(0, |e|);
  }

  /** The first flagged position again, when i is the last flagged one. */
  lemma NextSeatFromLast(flags: seq<bool>, e: seq<nat>, i: int)
    requires Enumerates(e, flags) && e != []
    requires 0 <= i < |flags| && flags[i]
    requires forall k :: i < k < |flags| ==> !flags[k]
    ensures NextSeat(e, i) == e[0]
  {
    assert i in e;
    var p := IndexOf(e, i);
    var last := |e| - 1;
    assert e[last] in e;
    IncreasingOrder(e, p, last);
    assert p == last;
  }

  /** e[0] is the first flagged position. */
  lemma FirstOfFiltered(flags: seq<bool>, e: seq<nat>)
    requires Enumerates(e, flags) && e != []
    ensures 0 <= e[0] < |flags| && flags[e[0]] && forall k :: 0 <= k < e[0] ==> !flags[k]
  {
    assert e[0] in e;
    forall k | 0 <= k < e[0] ensures k !in e {
      forall q | 0 <= q < |e| ensures e[q] != k {
        IncreasingOrder(e, 0, q);
      }
    }
  }

  /**
   * What `(index + 1) % eligible.length` means in roster order: if the player at
   * position i can still score, the turn goes to the next such player after i,
   * wrapping to the first; if it cannot (it just filled its last box), the turn
   * goes to the first player who can, wherever that stands.
   */
  lemma NextSeatInRosterOrder(ps: seq<PlayerState>, i: int)
    requires Where(HasOpenBox(ps), Range(|ps|)) != []
    ensures var e := Where(HasOpenBox(ps), Range(|ps|));
            var j := NextSeat(e, i);
            var open := HasOpenBox(ps);
            && 0 <= j < |ps| && open[j]
            && (0 <= i < |ps| && open[i] && (exists k :: i < k < |ps| && open[k]) ==>
                  i < j && forall k :: i < k < j ==> !open[k])
            && (!(0 <= i < |ps| && open[i]) || (forall k :: i < k < |ps| ==> !open[k]) ==>
                  forall k :: 0 <= k < j ==> !open[k])
  {
    var open := HasOpenBox(ps);
    var e := Where(open, Range(|ps|));
    EligibleInOrder(ps);
    assert Enumerates(e, open);
    FirstOfFiltered(open, e);
    if !(0 <= i < |ps| && open[i]) {
      NextSeatFromUnflagged(open, e, i);
    } else if exists k :: i < k < |ps| && open[k] {
      NextSeatFollows(open, e, i);
    } else {
      NextSeatFromLast(open, e, i);
    }
  }

  /** When the departing player is not among the eligible, the turn goes to the first of them. */
  lemma RotateFromAbsent(ids: seq<Id>, eligible: seq<nat>, who: int)
    requires forall k :: 0 <= k < |eligible| ==> eligible[k] < |ids|
    requires who !in eligible && eligible != []
    ensures Rotate(ids, eligible, who) == Some(ids[eligible[0]])
  {
  }

  // ---------------------------------------------------------------- rolling

  /** A turn has at most three rolls; the first unlocks every die, later ones keep locked dice, a fourth does nothing. */
  lemma RollTurnOutcome(g: GameState, faces: seq<int>)
    requires |faces| == |g.dice|
    ensures var r := RollTurn(g, faces);
            && r.players == g.players && r.current == g.current && r.id == g.id && |r.dice| == |g.dice|
            && (0 <= g.rolls <= 3 ==> 1 <= r.rolls <= 3)
            && (g.rolls < 3 ==> r.rolls == g.rolls + 1)
            && (g.rolls == 0 ==> Faces(r.dice) == faces && forall k :: 0 <= k < |r.dice| ==> !r.dice[k].locked)
            && (0 < g.rolls < 3 ==> r.rolls == g.rolls + 1 && forall k :: 0 <= k < |r.dice| ==>
                  r.dice[k].locked == g.dice[k].locked &&
                  r.dice[k].value == if g.dice[k].locked then g.dice[k].value else faces[k])
            && (g.rolls >= 3 ==> r == g)
  {
  }

  // ---------------------------------------------------------------- scoring

  /** Scoring before the first roll of a turn is ignored. */
  lemma ScoreBeforeRollIgnored(g: GameState, name: string)
    requires g.rolls == 0
    ensures ScoreTurn(g, name) == Ok(g)
  {
  }

  /** When a score is refused, and what a player's score becomes when it is taken. */
  lemma ScoreTurnOutcome(g: GameState, name: string)
    requires g.rolls != 0
    ensures var at := Find(Ids(g.players), g.current);
            var r := ScoreTurn(g, name);
            && (at.None? ==> r == Err(NoCurrentPlayer))
            && (at.Some? ==> (r.Ok? <==> Parse(name).Some? && g.players[at.value].score.Slot(Parse(name).value).None?))
            && (at.Some? && r.Ok? ==>
                  var i := at.value;
                  var h := r.value;
                  && h.rolls == 0 && h.id == g.id
                  && Faces(h.dice) == Faces(g.dice) && (forall k :: 0 <= k < |h.dice| ==> !h.dice[k].locked)
                  && |h.players| == |g.players|
                  && (forall j :: 0 <= j < |g.players| && j != i ==> h.players[j] == g.players[j])
                  && h.players[i].id == g.players[i].id && h.players[i].name == g.players[i].name
                  && h.players[i].score.Slot(Parse(name).value) == Some(ValuesOf(Faces(g.dice)).Get(Parse(name).value))
                  && h.players[i].score.Empty() == g.players[i].score.Empty() - 1)
  {
    var at := Find(Ids(g.players), g.current);
    if at.Some? {
      TallyOutcome(g.players[at.value].score, name, Faces(g.dice));
    }
  }

  /** The successful step of ScoreTurn, for the imperative Roll5.Score. */
  lemma ScoreTurnTakes(g: GameState, name: string, i: nat, s: ScoreState)
    requires g.rolls != 0 && Find(Ids(g.players), g.current) == Some(i)
    requires TallyScore(g.players[i].score, name, Faces(g.dice)) == Ok(s)
    ensures var ps := g.players[i := g.players[i].(score := s)];
            ScoreTurn(g, name) ==
              Ok(g.(players := ps, current := Rotate(Ids(ps), Where(HasOpenBox(ps), Range(|ps|)), i), rolls := 0, dice := Unlock(g.dice)))
  {
  }

  /** After a score the turn passes to a player who still has an open box; the game ends (null) exactly when nobody has one. */
  lemma ScoreTurnHandsOver(g: GameState, name: string)
    requires g.rolls != 0 && ScoreTurn(g, name).Ok?
    ensures var h := ScoreTurn(g, name).value;
            && (h.current.None? <==> forall j :: 0 <= j < |h.players| ==> h.players[j].score.Empty() == 0)
            && (h.current.Some? ==> exists j :: 0 <= j < |h.players| && h.players[j].id == h.current.value && h.players[j].score.Empty() > 0)
  {
    var h := ScoreTurn(g, name).value;
    var i := Find(Ids(g.players), g.current).value;
    var e := Where(HasOpenBox(h.players), Range(|h.players|));
    EligibleInOrder(h.players);
    assert h.current == Rotate(Ids(h.players), e, i);
    if e != [] {
      var j := NextSeat(e, i);
      assert j in e;
      assert h.players[j].id == h.current.value;
    } else {
      forall j | 0 <= j < |h.players| ensures h.players[j].score.Empty() == 0 {
        assert j !in e;
      }
    }
  }

  /**
   * Who gets the turn after a score, in roster order: the next player after the
   * scorer with an open box (wrapping round), or, when the scorer has just filled
   * its last box, the first player with an open box.
   */
  lemma ScoreTurnRotation(g: GameState, name: string)
    requires g.rolls != 0 && ScoreTurn(g, name).Ok? && ScoreTurn(g, name).value.current.Some?
    ensures var h := ScoreTurn(g, name).value;
            var i := Find(Ids(g.players), g.current).value;
            var open := HasOpenBox(h.players);
            exists j :: (&& 0 <= j < |h.players| && open[j] && h.current.value == h.players[j].id
                         && (open[i] && (exists k :: i < k < |h.players| && open[k]) ==>
                               i < j && forall k :: i < k < j ==> !open[k])
                         && (!open[i] || (forall k :: i < k < |h.players| ==> !open[k]) ==>
                               forall k :: 0 <= k < j ==> !open[k]))
  {
    var h := ScoreTurn(g, name).value;
    var i := Find(Ids(g.players), g.current).value;
    var e := Where(HasOpenBox(h.players), Range(|h.players|));
    EligibleInOrder(h.players);
    assert h.current == Rotate(Ids(h.players), e, i);
    NextSeatInRosterOrder(h.players, i);
    var j := NextSeat(e, i);
    assert h.current.value == h.players[j].id;
  }

  // ---------------------------------------------------------------- departure

  /** Depart when somebody remains, for the imperative disconnect handler. */
  lemma DepartTakes(g: GameState, caller: Id, kept: seq<nat>)
    requires kept == Where(NotCaller(Ids(g.players), caller), Range(|g.players|)) && kept != []
    ensures var player := Find(Ids(g.players), Some(caller));
            var turn := g.current == Some(caller);
            Depart(g, caller) == Some(g.(players := Select(g.players, kept),
              current := if turn then Rotate(Ids(g.players), Where(HasOpenBox(g.players), kept), if player.Some? then player.value else -1) else g.current,
              rolls := if turn then 0 else g.rolls))
  {
  }

  /** Depart when nobody remains. */
  lemma DepartEmpties(g: GameState, caller: Id)
    requires Where(NotCaller(Ids(g.players), caller), Range(|g.players|)) == []
    ensures Depart(g, caller).None?
  {
  }

  /** The roster positions lo .. hi-1. */
  function Span(lo: nat, hi: nat): (r: seq<nat>)
    requires lo <= hi
    ensures |r| == hi - lo && forall k :: 0 <= k < |r| ==> r[k] == lo + k
  {
    seq(hi - lo, k requires 0 <= k < hi - lo => lo + k)
  }

  lemma SelectConcat(ps: seq<PlayerState>, a: seq<nat>, b: seq<nat>)
    requires forall k :: 0 <= k < |a| ==> a[k] < |ps|
    requires forall k :: 0 <= k < |b| ==> b[k] < |ps|
    ensures Select(ps, a + b) == Select(ps, a) + Select(ps, b)
  {
  }

  /** Selecting the kept positions from lo onwards is filtering the players from lo onwards. */
  lemma {:induction false} KeptFrom(ps: seq<PlayerState>, caller: Id, lo: nat)
    requires lo <= |ps|
    ensures Select(ps, Where(NotCaller(Ids(ps), caller), Span(lo, |ps|))) == Without(ps[lo..], caller)
    decreases |ps| - lo
  {
    var flags := NotCaller(Ids(ps), caller);
    var s := Span(lo, |ps|);
    if lo < |ps| {
      assert s[1..] == Span(lo + 1, |ps|);
      var head: seq<nat> := if flags[lo] then [lo] else [];
      assert Where(flags, s) == head + Where(flags, s[1..]);
      SelectConcat(ps, head, Where(flags, s[1..]));
      KeptFrom(ps, caller, lo + 1);
      assert ps[lo..][1..] == ps[lo + 1..];
    }
  }

  /** The kept players are exactly `Without`: the filter keeps order and repeats. */
  lemma KeptIsWithout(ps: seq<PlayerState>, caller: Id)
    ensures Select(ps, Where(NotCaller(Ids(ps), caller), Range(|ps|))) == Without(ps, caller)
  {
    assert Range(|ps|) == Span(0, |ps|);
    KeptFrom(ps, caller, 0);
    assert ps[0..] == ps;
  }

  /** `Without` keeps exactly the players whose id is not the caller's. */
  lemma {:induction false} WithoutMembers(ps: seq<PlayerState>, caller: Id)
    ensures forall p :: p in Without(ps, caller) <==> p in ps && p.id != caller
    decreases |ps|
  {
    if ps != [] {
      WithoutMembers(ps[1..], caller);
      assert ps == [ps[0]] + ps[1..];
    }
  }

  /** Everyone with the caller's id leaves, the others stay in order; the room empties exactly when nobody else was in it. */
  lemma DepartRoster(g: GameState, caller: Id)
    ensures var r := Depart(g, caller);
            && (r.None? <==> forall j :: 0 <= j < |g.players| ==> g.players[j].id == caller)
            && (r.Some? ==> r.value.players == Without(g.players, caller))
            && (r.Some? ==> forall p :: p in r.value.players <==> p in g.players && p.id != caller)
            && (r.Some? ==> r.value.id == g.id && r.value.dice == g.dice)
            && (r.Some? && g.current != Some(caller) ==> r.value.current == g.current && r.value.rolls == g.rolls)
  {
    var flags := NotCaller(Ids(g.players), caller);
    var kept := Where(flags, Range(|g.players|));
    RangeFacts(|g.players|);
    WhereBounded(flags, Range(|g.players|));
    if kept == [] {
      forall j | 0 <= j < |g.players| ensures g.players[j].id == caller {
        assert j !in kept;
      }
    } else {
      DepartTakes(g, caller, kept);
      KeptIsWithout(g.players, caller);
      WithoutMembers(g.players, caller);
      assert kept[0] in kept;
    }
  }

  /** Filtering `kept` by `open`: the first survivor sits at some position m of `kept`, with nothing flagged before it. */
  lemma FirstSurvivor(open: seq<bool>, kept: seq<nat>) returns (m: nat)
    requires Increasing(kept) && forall k :: 0 <= k < |kept| ==> kept[k] < |open|
    requires Where(open, kept) != []
    ensures m < |kept| && kept[m] == Where(open, kept)[0] && open[kept[m]]
    ensures forall k :: 0 <= k < m ==> !open[kept[k]]
  {
    var e := Where(open, kept);
    WhereBounded(open, kept);
    WhereIncreasing(open, kept);
    assert e[0] in e;
    m :| 0 <= m < |kept| && kept[m] == e[0];
    forall k | 0 <= k < m ensures kept[k] !in e {
      IncreasingOrder(kept, k, m);
      forall q | 0 <= q < |e| ensures e[q] != kept[k] {
        IncreasingOrder(e, 0, q);
      }
    }
    forall k | 0 <= k < m ensures !open[kept[k]] {
      assert kept[k] in kept && kept[k] !in e;
    }
  }

  /** Filtering `kept` by `open` leaves nothing exactly when no kept position is flagged. */
  lemma NoSurvivor(open: seq<bool>, kept: seq<nat>)
    requires forall k :: 0 <= k < |kept| ==> kept[k] < |open|
    requires Where(open, kept) == []
    ensures forall k :: 0 <= k < |kept| ==> !open[kept[k]]
  {
    WhereBounded(open, kept);
    forall k | 0 <= k < |kept| ensures !open[kept[k]] {
      assert kept[k] in kept;
    }
  }

  /**
   * Rotating from a position outside the eligible list lands on the first kept
   * player with an open box, or on nobody when no kept player has one.
   */
  lemma RotateToFirstOpen(ps: seq<PlayerState>, kept: seq<nat>, who: int)
    requires Increasing(kept) && forall k :: 0 <= k < |kept| ==> kept[k] < |ps|
    requires who !in Where(HasOpenBox(ps), kept)
    ensures var hs := Select(ps, kept);
            var c := Rotate(Ids(ps), Where(HasOpenBox(ps), kept), who);
            && (c.None? <==> forall j :: 0 <= j < |hs| ==> hs[j].score.Empty() == 0)
            && (c.Some? ==>
                  exists j :: (0 <= j < |hs| && hs[j].score.Empty() > 0 && c.value == hs[j].id
                               && forall k :: 0 <= k < j ==> hs[k].score.Empty() == 0))
  {
    var hs := Select(ps, kept);
    var open := HasOpenBox(ps);
    var e := Where(open, kept);
    WhereBounded(open, kept);
    if e == [] {
      NoSurvivor(open, kept);
      forall j | 0 <= j < |hs| ensures hs[j].score.Empty() == 0 {
        assert !open[kept[j]];
      }
    } else {
      RotateFromAbsent(Ids(ps), e, who);
      var m := FirstSurvivor(open, kept);
      assert hs[m] == ps[e[0]];
      forall k | 0 <= k < m ensures hs[k].score.Empty() == 0 {
        assert !open[kept[k]];
      }
    }
  }

  /**
   * When the departing player held the turn, rolls restart and the turn goes to
   * the FIRST remaining player (in roster order) who still has an open box, not
   * to the one after the departed player; null when nobody remaining has one.
   */
  lemma DepartHandsToFirst(g: GameState, caller: Id)
    requires g.current == Some(caller) && Depart(g, caller).Some?
    ensures var h := Depart(g, caller).value;
            && h.rolls == 0
            && (h.current.None? <==> forall j :: 0 <= j < |h.players| ==> h.players[j].score.Empty() == 0)
            && (h.current.Some? ==>
                  exists j :: (0 <= j < |h.players| && h.players[j].score.Empty() > 0 && h.current.value == h.players[j].id
                               && forall k :: 0 <= k < j ==> h.players[k].score.Empty() == 0))
  {
    var ids := Ids(g.players);
    var flags := NotCaller(ids, caller);
    var kept := Where(flags, Range(|g.players|));
    RangeFacts(|g.players|);
    WhereBounded(flags, Range(|g.players|));
    WhereIncreasing(flags, Range(|g.players|));
    if kept == [] {
      DepartEmpties(g, caller);
      assert false;
    }
    DepartTakes(g, caller, kept);
    var open := HasOpenBox(g.players);
    WhereBounded(open, kept);
    var player := Find(ids, Some(caller));
    var who := if player.Some? then player.value else -1;
    assert who !in Where(open, kept) by {
      if player.Some? { assert !flags[who]; }
    }
    RotateToFirstOpen(g.players, kept, who);
  }

  // ---------------------------------------------------------------- the game invariant

  /** What every live game satisfies: five dice showing 1..6, at most three rolls, a non-empty roster holding the current player. */
  ghost predicate Good(g: GameState)
  {
    && |g.dice| == 5 && IsRoll(Faces(g.dice))
    && 0 <= g.rolls <= 3
    && g.players != []
    && (g.current.Some? ==> g.current.value in Ids(g.players))
  }

  lemma NewGameGood(first: PlayerState, faces: seq<int>, id: string)
    requires IsRoll(faces)
    ensures Good(NewGame(first, faces, id))
  {
    assert Ids([first]) == [first.id];
  }

  lemma RollTurnGood(g: GameState, faces: seq<int>)
    requires Good(g) && IsRoll(faces)
    ensures Good(RollTurn(g, faces))
  {
    var r := RollTurn(g, faces);
    RollTurnOutcome(g, faces);
    assert Ids(r.players) == Ids(g.players);
    forall k | 0 <= k < 5 ensures 1 <= Faces(r.dice)[k] <= 6 {
      assert Faces(r.dice)[k] == r.dice[k].value;
      assert Faces(g.dice)[k] == g.dice[k].value;
    }
  }

  lemma ToggleDieGood(g: GameState, die: int)
    requires Good(g) && ToggleDie(g, die).Ok?
    ensures Good(ToggleDie(g, die).value)
  {
    assert Faces(ToggleDie(g, die).value.dice) == Faces(g.dice);
    assert Ids(ToggleDie(g, die).value.players) == Ids(g.players);
  }

  /** Toggling a die twice gives the game back; a missing die fails both times. */
  lemma ToggleTwiceRestores(g: GameState, die: int)
    ensures ToggleDie(g, die).Ok? <==> 0 <= die < |g.dice|
    ensures ToggleDie(g, die).Ok? ==> ToggleDie(ToggleDie(g, die).value, die) == Ok(g)
  {
    if 0 <= die < |g.dice| {
      var h := ToggleDie(g, die).value;
      assert h.dice[die].locked == !g.dice[die].locked;
      assert h.dice[die := h.dice[die].(locked := !h.dice[die].locked)] == g.dice;
    }
  }

  lemma ScoreTurnGood(g: GameState, name: string)
    requires Good(g) && ScoreTurn(g, name).Ok?
    ensures Good(ScoreTurn(g, name).value)
  {
    if g.rolls != 0 {
      var h := ScoreTurn(g, name).value;
      assert Faces(h.dice) == Faces(g.dice);
      ScoreTurnHandsOver(g, name);
      if h.current.Some? {
        var j :| 0 <= j < |h.players| && h.players[j].id == h.current.value && h.players[j].score.Empty() > 0;
        assert Ids(h.players)[j] == h.current.value;
      }
    }
  }

  /** In a game that satisfies the invariant, only a bad box name or a filled box makes a score fail. */
  lemma ScoreTurnFindsPlayer(g: GameState, name: string)
    requires Good(g) && g.current.Some?
    ensures ScoreTurn(g, name) != Err(NoCurrentPlayer)
  {
    var j :| 0 <= j < |Ids(g.players)| && Ids(g.players)[j] == g.current.value;
    assert Find(Ids(g.players), g.current).Some?;
    if g.rolls != 0 {
      var i := Find(Ids(g.players), g.current).value;
      TallyOutcome(g.players[i].score, name, Faces(g.dice));
    }
  }

  lemma DepartGood(g: GameState, caller: Id)
    requires Good(g) && Depart(g, caller).Some?
    ensures Good(Depart(g, caller).value)
  {
    var h := Depart(g, caller).value;
    DepartRoster(g, caller);
    if g.current == Some(caller) {
      DepartHandsToFirst(g, caller);
      if h.current.Some? {
        var j :| 0 <= j < |h.players| && h.players[j].score.Empty() > 0 && h.current.value == h.players[j].id
                  && forall k :: 0 <= k < j ==> h.players[k].score.Empty() == 0;
        assert Ids(h.players)[j] == h.current.value;
      }
    } else if h.current.Some? {
      var j :| 0 <= j < |Ids(g.players)| && Ids(g.players)[j] == g.current.value;
      assert g.players[j] in h.players;
      var k :| 0 <= k < |h.players| && h.players[k] == g.players[j];
      assert Ids(h.players)[k] == h.current.value;
    }
  }

  /** A finished game (nobody holds the turn) stays finished: rolling, toggling and scoring cannot restart it. */
  lemma FinishedStaysFinished(g: GameState, faces: seq<int>, die: int, name: string)
    requires g.current.None? && |faces| == |g.dice|
    ensures RollTurn(g, faces).current.None?
    ensures ToggleDie(g, die).Ok? ==> ToggleDie(g, die).value.current.None?
    ensures ScoreTurn(g, name).Ok? ==> ScoreTurn(g, name).value == g
  {
    if g.rolls != 0 {
      assert Find(Ids(g.players), g.current).None? by {
        assert forall j :: 0 <= j < |Ids(g.players)| ==> Some(Ids(g.players)[j]) != g.current;
      }
    }
  }

  /** Filtering the middle of three ids out keeps the outer two positions. */
  lemma MiddleFiltered(x: Id, y: Id, z: Id)
    requires x != y && z != y
    ensures Where(NotCaller([x, y, z], y), Range(3)) == [0, 2]
  {
    var flags := NotCaller([x, y, z], y);
    assert Range(3) == [0, 1, 2];
    assert flags == [true, false, true];
    assert Where(flags, [2]) == [2];
    assert Where(flags, [1, 2]) == [2] by { assert [1, 2][1..] == [2]; }
    assert [0, 1, 2][1..] == [1, 2];
  }

  /** Both outer players of three can still score, so both stay eligible. */
  lemma OuterEligible(ps: seq<PlayerState>)
    requires |ps| == 3 && ps[0].score.Empty() > 0 && ps[2].score.Empty() > 0
    ensures Where(HasOpenBox(ps), [0, 2]) == [0, 2]
  {
    var open := HasOpenBox(ps);
    assert open[0] && open[2];
    assert Where(open, [2]) == [2];
    assert [0, 2][1..] == [2];
  }

  /**
   * Three players who can all still score, the middle one holding the turn and
   * leaving: the turn goes back to the first player, not on to the third. An
   * illustration of DepartHandsToFirst on one roster.
   */
  lemma DepartScenario(a: PlayerState, b: PlayerState, c: PlayerState, dice: seq<DieState>, rolls: int, id: string)
    requires a.id != b.id && c.id != b.id
    requires a.score.Empty() > 0 && c.score.Empty() > 0
    ensures var g := GameState([a, b, c], Some(b.id), dice, rolls, id);
            Depart(g, b.id) == Some(g.(players := [a, c], current := Some(a.id), rolls := 0))
  {
    var g := GameState([a, b, c], Some(b.id), dice, rolls, id);
    var ids := Ids(g.players);
    assert ids == [a.id, b.id, c.id];
    MiddleFiltered(a.id, b.id, c.id);
    OuterEligible(g.players);
    DepartTakes(g, b.id, [0, 2]);
    assert Select(g.players, [0, 2]) == [a, c];
    assert Find(ids, Some(b.id)) == Some(1);
    assert IndexOf([0, 2], 1) == -1;
  }
}
