/**
 * The room registry of app.js (the `games` map and the socket handlers, without
 * the transport): first as functions on a map from room key to game state, then
 * as a class holding the map of Roll5 objects whose handler methods are proved to
 * follow those functions. The caller's socket id is a parameter of each handler.
 */
module App {
  import opened Basics
  import opened Dice
  import opened Sheet
  import opened Turns
  import opened Engine

  type Table = map<string, GameState>

  /** What a handler did: no game under that key (an error goes back to the caller), not the caller's turn, done, or an exception escaped. */
  datatype Reply = NoRoom | Ignored | Applied | Raised(error: Error)

  datatype Step = Step(reply: Reply, table: Table)

  /** Every game of the table satisfies the game invariant. */
  ghost predicate AllGood(t: Table)
  {
    forall r :: r in t ==> Good(t[r])
  }

  /** The `join` handler: a new game with the caller alone for an unknown key, otherwise the caller appended to the roster. */
  function JoinRoom(t: Table, room: string, caller: Id, name: string, faces: seq<int>, gameId: string): (r: Table)
    ensures room in r && r.Keys == t.Keys + {room}
    ensures forall q :: q in t && q != room ==> r[q] == t[q]
  {
    var player := PlayerState(name, caller, NewScore);
    if room !in t then t[room := NewGame(player, faces, gameId)]
    else t[room := t[room].(players := t[room].players + [player])]
  }

  /** The `roll` handler: only the current player's roll reaches the game. */
  function RollRoom(t: Table, room: string, caller: Id, faces: seq<int>): (r: Step)
    requires room in t ==> |faces| == |t[room].dice|
    ensures r.reply == NoRoom <==> room !in t
    ensures r.table != t ==> room in t && t[room].current == Some(caller)
    ensures r.table.Keys == t.Keys && forall q :: q in t && q != room ==> r.table[q] == t[q]
  {
    if room !in t then Step(NoRoom, t)
    else if t[room].current == Some(caller) then Step(Applied, t[room := RollTurn(t[room], faces)])
    else Step(Ignored, t)
  }

  /** The `toggleDie` handler: only the current player may toggle, at any stage of the turn; a die index with no die throws. */
  function ToggleRoom(t: Table, room: string, caller: Id, die: int): (r: Step)
    ensures r.reply == NoRoom <==> room !in t
    ensures r.table != t ==> room in t && t[room].current == Some(caller)
    ensures r.table.Keys == t.Keys && forall q :: q in t && q != room ==> r.table[q] == t[q]
  {
    if room !in t then Step(NoRoom, t)
    else if t[room].current != Some(caller) then Step(Ignored, t)
    else match ToggleDie(t[room], die)
      case Ok(g) => Step(Applied, t[room := g])
      case Err(e) => Step(Raised(e), t)
  }

  /** The `score` handler: only the current player may score; an exception from Roll5.score leaves the game as it was. */
  function ScoreRoom(t: Table, room: string, caller: Id, box: string): (r: Step)
    ensures r.reply == NoRoom <==> room !in t
    ensures r.table != t ==> room in t && t[room].current == Some(caller)
    ensures r.table.Keys == t.Keys && forall q :: q in t && q != room ==> r.table[q] == t[q]
  {
    if room !in t then Step(NoRoom, t)
    else if t[room].current != Some(caller) then Step(Ignored, t)
    else match ScoreTurn(t[room], box)
      case Ok(g) => Step(Applied, t[room := g])
      case Err(e) => Step(Raised(e), t)
  }

  /**
   * The `disconnecting` handler over the socket's rooms, in order: each game under
   * one of those keys loses the caller. The first game left empty is deleted and
   * the handler returns at once, so later rooms are not visited.
   */
  function Leave(t: Table, caller: Id, rooms: seq<string>): (r: Table)
    ensures r.Keys <= t.Keys
    ensures forall q :: q in t && q !in rooms ==> q in r && r[q] == t[q]
    decreases |rooms|
  {
    if rooms == [] then t
    else if rooms[0] !in t then Leave(t, caller, rooms[1..])
    else match Depart(t[rooms[0]], caller)
      case None => t - {rooms[0]}
      case Some(g) => Leave(t[rooms[0] := g], caller, rooms[1..])
  }

  // ---------------------------------------------------------------- properties of the handlers

  /** Joining an unknown key starts a game with the caller alone and on turn; joining a known key appends, even when the id is already on the roster. */
  lemma JoinOutcome(t: Table, room: string, caller: Id, name: string, faces: seq<int>, gameId: string)
    ensures var r := JoinRoom(t, room, caller, name, faces, gameId);
            var player := PlayerState(name, caller, NewScore);
            && (room !in t ==> r[room].players == [player] && r[room].current == Some(caller) && r[room].rolls == 1
                               && Faces(r[room].dice) == faces && r[room].id == gameId)
            && (room in t ==> r.Keys == t.Keys && r[room] == t[room].(players := t[room].players + [player]))
            && (room in t ==> |r[room].players| == |t[room].players| + 1 && r[room].players[|t[room].players|].id == caller)
  {
  }

  /** Once nobody holds the turn, every roll, toggle and score is ignored, whoever sends it. */
  lemma FinishedRoomIgnoresEveryone(t: Table, room: string, caller: Id, faces: seq<int>, die: int, box: string)
    requires room in t && t[room].current.None? && |faces| == |t[room].dice|
    ensures RollRoom(t, room, caller, faces) == Step(Ignored, t)
    ensures ToggleRoom(t, room, caller, die) == Step(Ignored, t)
    ensures ScoreRoom(t, room, caller, box) == Step(Ignored, t)
  {
  }

  /** With distinct keys and no game emptied, every listed game loses the caller as Depart says and no key disappears. */
  lemma {:induction false} LeaveEveryRoom(t: Table, caller: Id, rooms: seq<string>)
    requires forall i, j :: 0 <= i < j < |rooms| ==> rooms[i] != rooms[j]
    requires forall r :: r in rooms && r in t ==> Depart(t[r], caller).Some?
    ensures Leave(t, caller, rooms).Keys == t.Keys
    ensures forall r :: r in rooms && r in t ==> Leave(t, caller, rooms)[r] == Depart(t[r], caller).value
    decreases |rooms|
  {
    if rooms != [] {
      var rest := rooms[1..];
      assert forall r :: r in rest ==> r in rooms && r != rooms[0];
      if rooms[0] in t {
        var t' := t[rooms[0] := Depart(t[rooms[0]], caller).value];
        LeaveEveryRoom(t', caller, rest);
        assert rooms[0] !in rest;
      } else {
        LeaveEveryRoom(t, caller, rest);
      }
    }
  }

  /**
   * The early return: once a listed game empties it is deleted and the handler
   * stops, so the rooms listed after it keep the caller on their rosters.
   */
  lemma {:induction false} LeaveStopsAtEmptiedRoom(t: Table, caller: Id, pre: seq<string>, a: string, post: seq<string>)
    requires forall i, j :: 0 <= i < j < |pre| ==> pre[i] != pre[j]
    requires forall r :: r in pre && r in t ==> Depart(t[r], caller).Some?
    requires a in t && a !in pre && Depart(t[a], caller).None?
    ensures Leave(t, caller, pre + [a] + post) == Leave(t, caller, pre) - {a}
    ensures forall q :: q in t && q !in pre && q != a ==>
              q in Leave(t, caller, pre + [a] + post) && Leave(t, caller, pre + [a] + post)[q] == t[q]
    decreases |pre|
  {
    var rooms := pre + [a] + post;
    if pre == [] {
      assert rooms == [a] + post;
    } else {
      var x := pre[0];
      assert rooms[0] == x && rooms[1..] == pre[1..] + [a] + post;
      assert forall r :: r in pre[1..] ==> r in pre && r != x;
      if x in t {
        var t' := t[x := Depart(t[x], caller).value];
        LeaveStopsAtEmptiedRoom(t', caller, pre[1..], a, post);
      } else {
        LeaveStopsAtEmptiedRoom(t, caller, pre[1..], a, post);
      }
    }
  }

  // ---------------------------------------------------------------- the invariant across handlers

  lemma JoinRoomGood(t: Table, room: string, caller: Id, name: string, faces: seq<int>, gameId: string)
    requires AllGood(t) && IsRoll(faces)
    ensures AllGood(JoinRoom(t, room, caller, name, faces, gameId))
  {
    var player := PlayerState(name, caller, NewScore);
    if room !in t {
      NewGameGood(player, faces, gameId);
    } else {
      var g := t[room];
      var h := g.(players := g.players + [player]);
      if g.current.Some? {
        var j :| 0 <= j < |Ids(g.players)| && Ids(g.players)[j] == g.current.value;
        assert Ids(h.players)[j] == g.current.value;
      }
    }
  }

  lemma RollRoomGood(t: Table, room: string, caller: Id, faces: seq<int>)
    requires AllGood(t) && IsRoll(faces) && (room in t ==> |faces| == |t[room].dice|)
    ensures AllGood(RollRoom(t, room, caller, faces).table)
  {
    if room in t {
      RollTurnGood(t[room], faces);
    }
  }

  lemma ToggleRoomGood(t: Table, room: string, caller: Id, die: int)
    requires AllGood(t)
    ensures AllGood(ToggleRoom(t, room, caller, die).table)
  {
    if room in t && ToggleDie(t[room], die).Ok? {
      ToggleDieGood(t[room], die);
    }
  }

  lemma ScoreRoomGood(t: Table, room: string, caller: Id, box: string)
    requires AllGood(t)
    ensures AllGood(ScoreRoom(t, room, caller, box).table)
  {
    if room in t && ScoreTurn(t[room], box).Ok? {
      ScoreTurnGood(t[room], box);
    }
  }

  lemma {:induction false} LeaveGood(t: Table, caller: Id, rooms: seq<string>)
    requires AllGood(t)
    ensures AllGood(Leave(t, caller, rooms))
    decreases |rooms|
  {
    if rooms != [] && rooms[0] in t {
      var d := Depart(t[rooms[0]], caller);
      if d.Some? {
        DepartGood(t[rooms[0]], caller);
        LeaveGood(t[rooms[0] := d.value], caller, rooms[1..]);
      }
    } else if rooms != [] {
      LeaveGood(t, caller, rooms[1..]);
    }
  }

  /** In a table that keeps the invariant, the score handler can only raise an unknown-box or already-scored error. */
  lemma ScoreRoomErrors(t: Table, room: string, caller: Id, box: string)
    requires AllGood(t)
    ensures ScoreRoom(t, room, caller, box).reply.Raised? ==>
              ScoreRoom(t, room, caller, box).reply.error in {InvalidBox, AlreadyScored}
  {
    if room in t && t[room].current == Some(caller) {
      ScoreTurnFindsPlayer(t[room], box);
      var g := t[room];
      if g.rolls != 0 {
        var i := Find(Ids(g.players), g.current).value;
        TallyOutcome(g.players[i].score, box, Faces(g.dice));
      }
    }
  }

  // ---------------------------------------------------------------- the registry object

  /** A game whose objects were not touched reads back the same. */
  twostate lemma GameFramed(g: Roll5)
    requires old(g.Valid()) && unchanged(g) && unchanged(g.Repr)
    ensures g.Valid() && g.State() == old(g.State())
  {
  }

  /** Changing the objects of one game, and nothing else, changes only that game's entry. */
  twostate lemma OneGameChanged(rs: Rooms, new room: string, new g: Roll5)
    requires old(rs.Valid()) && unchanged(rs) && room in rs.games && rs.games[room] == g
    requires g.Valid() && g.Repr == old(rs.games[room].Repr)
    requires forall q, o :: q in rs.games && q != room && o in old(rs.games[q].Repr) ==> unchanged(o)
    ensures rs.Valid() && rs.State() == old(rs.State())[room := g.State()]
  {
    forall q | q in rs.games
      ensures rs.games[q].Repr == old(rs.games[q].Repr)
      ensures rs.games[q] in rs.Repr && rs.games[q].Repr <= rs.Repr && rs !in rs.games[q].Repr && rs.games[q].Valid()
      ensures rs.games[q].State() == old(rs.State())[room := g.State()][q]
    {
      if q != room {
        GameFramed(rs.games[q]);
      }
    }
    forall r, q | r in rs.games && q in rs.games && r != q
      ensures rs.games[r].Repr !! rs.games[q].Repr
    {
      assert old(rs.games[r].Repr !! rs.games[q].Repr);
    }
    assert rs.Valid();
    assert rs.State() == old(rs.State())[room := g.State()] by {
      forall q | q in rs.games ensures rs.State()[q] == old(rs.State())[room := g.State()][q] {
      }
    }
  }

  /** Putting a game under a room key, with objects no other game owns, changes only that entry. */
  twostate lemma GameInstalled(rs: Rooms, new room: string, new g: Roll5)
    requires old(rs.Valid()) && rs.games == old(rs.games)[room := g] && rs.Repr == old(rs.Repr) + g.Repr
    requires g.Valid() && rs !in g.Repr
    requires forall q, o :: q in old(rs.games) && q != room && o in old(rs.games[q].Repr) ==> o !in g.Repr
    requires forall q, o :: q in old(rs.games) && q != room && o in old(rs.games[q].Repr) ==> unchanged(o)
    ensures rs.Valid()
    ensures rs.State() == old(rs.State())[room := g.State()]
  {
    forall q | q in rs.games && q != room
      ensures rs.games[q] == old(rs.games[q]) && rs.games[q].Repr == old(rs.games[q].Repr)
      ensures rs.games[q].Repr !! g.Repr && rs.games[q].Repr <= rs.Repr
      ensures rs.games[q].Valid() && rs.games[q].State() == old(rs.games[q].State())
    {
      GameFramed(rs.games[q]);
    }
    forall r, q | r in rs.games && q in rs.games && r != q
      ensures rs.games[r].Repr !! rs.games[q].Repr
    {
      if r != room && q != room {
        assert old(rs.games[r].Repr !! rs.games[q].Repr);
      }
    }
    assert rs.Valid();
    assert rs.State() == old(rs.State())[room := g.State()] by {
      forall q | q in rs.games ensures rs.State()[q] == old(rs.State())[room := g.State()][q] {
      }
    }
  }

  /** Deleting a room key, leaving every other game's objects alone, drops only that entry. */
  twostate lemma RoomDeleted(rs: Rooms, new room: string)
    requires old(rs.Valid()) && rs.games == old(rs.games) - {room} && rs.Repr == old(rs.Repr)
    requires forall q, o :: q in old(rs.games) && q != room && o in old(rs.games[q].Repr) ==> unchanged(o)
    ensures rs.Valid() && rs.State() == old(rs.State()) - {room}
  {
    forall q | q in rs.games
      ensures rs.games[q].Repr == old(rs.games[q].Repr)
      ensures rs.games[q].Valid() && rs.games[q].State() == old(rs.games[q].State())
    {
      GameFramed(rs.games[q]);
    }
    forall r, q | r in rs.games && q in rs.games && r != q
      ensures rs.games[r].Repr !! rs.games[q].Repr
    {
      assert old(rs.games[r].Repr !! rs.games[q].Repr);
    }
    assert rs.Valid();
    assert rs.State() == old(rs.State()) - {room} by {
      forall q | q in rs.games ensures rs.State()[q] == old(rs.State())[q] {
      }
    }
  }

  /** `game.players.filter(...)` once the kept positions are known. */
  function Pick(ps: seq<Player>, at: seq<nat>): (r: seq<Player>)
    requires forall k :: 0 <= k < |at| ==> at[k] < |ps|
    ensures |r| == |at| && forall k :: 0 <= k < |at| ==> r[k] == ps[at[k]]
  {
    seq(|at|, k requires 0 <= k < |at| => ps[at[k]])
  }

  /** `game.currentPlayer = next; game.rolls = 0`, leaving the dice as they are. */
  method HandOver(g: Roll5, next: Option<Id>)
    requires g.Valid()
    modifies g
    ensures g.Valid() && g.Repr == old(g.Repr)
    ensures g.State() == old(g.State()).(current := next, rolls := 0)
  {
    g.currentPlayer := next;
    g.rolls := 0;
  }

  /** `game.players.push(player)` for a player whose objects the game does not own yet. */
  method SeatPlayer(g: Roll5, player: Player)
    requires g.Valid() && player !in g.Repr && player.score !in g.Repr
    modifies g
    ensures g.Valid() && g.Repr == old(g.Repr) + {player, player.score}
    ensures g.State() == old(g.State()).(players := old(g.State()).players + [player.State()])
  {
    g.players := g.players + [player];
    g.Repr := g.Repr + {player, player.score};
    assert Snapshot(g.players) == old(Snapshot(g.players)) + [player.State()];
  }

  /** `game.players = game.players.filter(...)`, with the kept positions in roster order. */
  method KeepPlayers(g: Roll5, kept: seq<nat>)
    requires g.Valid() && Increasing(kept) && forall k :: 0 <= k < |kept| ==> kept[k] < |g.players|
    modifies g
    ensures g.Valid() && g.Repr == old(g.Repr)
    ensures g.State() == old(g.State()).(players := Select(old(g.State()).players, kept))
  {
    ghost var ps := Snapshot(g.players);
    g.players := Pick(g.players, kept);
    forall i, j | 0 <= i < j < |g.players| ensures g.players[i].score != g.players[j].score {
      IncreasingOrder(kept, i, j);
    }
    assert Snapshot(g.players) == Select(ps, kept);
  }

  /**
   * The body of the `disconnecting` loop for one game, up to the deletion: filter
   * the caller out of the roster and, if the caller held the turn, pass it on and
   * reset rolls. Reports whether the roster became empty.
   */
  method DropPlayer(g: Roll5, caller: Id) returns (emptied: bool)
    requires g.Valid()
    modifies g
    ensures emptied <==> Depart(old(g.State()), caller).None?
    ensures !emptied ==> g.Valid() && g.Repr == old(g.Repr) && g.State() == Depart(old(g.State()), caller).value
  {
    ghost var before := g.State();
    var ids := IdsOf(g.players);
    assert ids == Ids(before.players);
    var player := Find(ids, Some(caller));
    var kept := Where(NotCaller(ids, caller), Range(|ids|));
    if |kept| == 0 {
      DepartEmpties(before, caller);
      return true;
    }
    RangeFacts(|ids|);
    WhereIncreasing(NotCaller(ids, caller), Range(|ids|));
    var eligible := Where(HasOpenBox(Snapshot(g.players)), kept);
    KeepPlayers(g, kept);
    DepartTakes(before, caller, kept);
    if g.currentPlayer == Some(caller) {
      HandOver(g, Rotate(ids, eligible, if player.Some? then player.value else -1));
    }
    return false;
  }

  /** The `games` map of app.js; each game owns its objects, and no two games share one. */
  class Rooms {
    var games: map<string, Roll5>
    ghost var Repr: set<object>

    ghost predicate Valid()
      reads this, Repr
    {
      && this in Repr
      && (forall r :: r in games ==> games[r] in Repr && games[r].Repr <= Repr && this !in games[r].Repr && games[r].Valid())
      && (forall r, q :: r in games && q in games && r != q ==> games[r].Repr !! games[q].Repr)
    }

    function State(): Table
      reads this, Repr
      requires Valid()
    {
      map r | r in games :: games[r].State()
    }

    constructor ()
      ensures Valid() && State() == map[]
    {
      games := map[];
      Repr := {this};
    }

    /** The `join` handler; `faces` are the draws for a new game's dice, `gameId` its nanoid. */
    method Join(room: string, caller: Id, name: string, faces: seq<int>, gameId: string)
      requires Valid() && |faces| == 5
      modifies this, Repr
      ensures Valid() && fresh(Repr - old(Repr))
      ensures State() == JoinRoom(old(State()), room, caller, name, faces, gameId)
    {
      var player := new Player(name, caller);
      if room !in games {
        Open(room, player, faces, gameId);
      } else {
        Seat(room, player);
      }
    }

    /** `games.set(key, new Roll5(player))` for a key with no game yet. */
    method Open(room: string, player: Player, faces: seq<int>, gameId: string)
      requires Valid() && room !in games && |faces| == 5
      requires player !in Repr && player.score !in Repr
      modifies this
      ensures Valid() && fresh(Repr - old(Repr) - {player, player.score})
      ensures State() == old(State())[room := NewGame(player.State(), faces, gameId)]
    {
      var g := new Roll5(player, faces, gameId);
      ghost var started := g.State();
      assert started == NewGame(player.State(), faces, gameId);
      games := games[room := g];
      Repr := Repr + g.Repr;
      GameInstalled(this, room, g);
      assert g.State() == started;
    }

    /** `game.players.push(player)` on the game under an existing key. */
    method Seat(room: string, player: Player)
      requires Valid() && room in games
      requires player !in Repr && player.score !in Repr
      modifies Repr
      ensures Valid() && Repr == old(Repr) + {player, player.score}
      ensures State() == old(State())[room := old(State())[room].(players := old(State())[room].players + [player.State()])]
    {
      var g := games[room];
      SeatPlayer(g, player);
      Repr := Repr + g.Repr;
      GameInstalled(this, room, g);
    }

    /** The `roll` handler; `faces` are the five draws. */
    method Roll(room: string, caller: Id, faces: seq<int>) returns (reply: Reply)
      requires Valid() && |faces| == 5
      modifies Repr
      ensures Valid() && Repr == old(Repr)
      ensures Step(reply, State()) == RollRoom(old(State()), room, caller, faces)
    {
      ghost var t := State();
      if room !in games {
        return NoRoom;
      }
      var g := games[room];
      if g.currentPlayer != Some(caller) {
        return Ignored;
      }
      g.Roll(faces);
      OneGameChanged(this, room, g);
      return Applied;
    }

    /** The `toggleDie` handler: `game.dice[die].toggle()`, with no check of the turn stage. */
    method Toggle(room: string, caller: Id, die: int) returns (reply: Reply)
      requires Valid()
      modifies Repr
      ensures Valid() && Repr == old(Repr)
      ensures Step(reply, State()) == ToggleRoom(old(State()), room, caller, die)
    {
      ghost var t := State();
      if room !in games {
        return NoRoom;
      }
      var g := games[room];
      if g.currentPlayer != Some(caller) {
        return Ignored;
      }
      if !(0 <= die < |g.dice.dice|) {
        return Raised(NoSuchDie);
      }
      g.dice.dice[die].Toggle();
      SnapshotFramed(g.players);
      assert g.dice.State() == t[room].dice[die := t[room].dice[die].(locked := !t[room].dice[die].locked)];
      assert g.Valid();
      OneGameChanged(this, room, g);
      return Applied;
    }

    /** The `score` handler. */
    method Score(room: string, caller: Id, box: string) returns (reply: Reply)
      requires Valid()
      modifies Repr
      ensures Valid() && Repr == old(Repr)
      ensures Step(reply, State()) == ScoreRoom(old(State()), room, caller, box)
    {
      ghost var t := State();
      if room !in games {
        return NoRoom;
      }
      var g := games[room];
      if g.currentPlayer != Some(caller) {
        return Ignored;
      }
      var err := g.Score(box);
      OneGameChanged(this, room, g);
      if err.Some? {
        assert State() == t;
        return Raised(err.value);
      }
      return Applied;
    }

    /** One pass of the disconnect loop: the caller leaves the game under `room`, whose key goes when nobody is left. */
    method Drop(room: string, caller: Id) returns (closed: bool)
      requires Valid() && room in games
      modifies this, Repr
      ensures Valid() && Repr <= old(Repr)
      ensures closed <==> Depart(old(State())[room], caller).None?
      ensures closed ==> State() == old(State()) - {room}
      ensures !closed ==> State() == old(State())[room := Depart(old(State())[room], caller).value]
    {
      label Before:
      var g := games[room];
      var emptied := DropPlayer(g, caller);
      if emptied {
        games := games - {room};
        RoomDeleted@Before(this, room);
        return true;
      }
      OneGameChanged@Before(this, room, g);
      return false;
    }

    /** The `disconnecting` handler; `rooms` is `socket.rooms` in iteration order. */
    method Disconnecting(caller: Id, rooms: seq<string>)
      requires Valid()
      modifies this, Repr
      ensures Valid() && Repr <= old(Repr)
      ensures State() == Leave(old(State()), caller, rooms)
    {
      var i := 0;
      while i < |rooms|
        invariant 0 <= i <= |rooms|
        invariant Valid() && Repr <= old(Repr)
        invariant Leave(State(), caller, rooms[i..]) == Leave(old(State()), caller, rooms)
      {
        var room := rooms[i];
        assert rooms[i..] == [room] + rooms[i + 1..];
        if room in games {
          var closed := Drop(room, caller);
          if closed {
            return;
          }
        }
        i := i + 1;
      }
    }
  }
}
