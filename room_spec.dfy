// What a GameRoom does, on values: its state is the player list, the game
// status, the start time and the winner, and every operation gives the next
// state together with the messages it emits. The class GameRoom is proved
// to follow these functions; the room's promises are lemmas about them.

module RoomSpec {
  import opened Wrappers
  import opened ServerProtocol

  const MaxPlayers := 2

  datatype RoomState = RoomState(players: seq<Player>, gameState: Status, startTime: Option<int>, winner: Option<SocketId>)

  /** The next room state and what the operation emitted, in order. */
  datatype Step = Step(state: RoomState, sent: seq<Sent>)

  const NewRoom := RoomState([], Waiting, None, None)

  /** At most two players with distinct ids, and a finished game has a winner. */
  predicate RoomValid(s: RoomState)
  {
    DistinctIds(s.players) && |s.players| <= MaxPlayers && (s.gameState == Finished ==> s.winner.Some?)
  }

  /** `Date.now() - this.startTime`, where a null start time counts as 0. */
  function Elapsed(s: RoomState, now: int): int
  {
    now - (if s.startTime.Some? then s.startTime.value else 0)
  }

  /** `startGame`. */
  function Start(s: RoomState, roomId: RoomId, now: int): Step
  {
    Step(s.(gameState := Starting, startTime := Some(now)), ToEach(s.players, GameStart(roomId, Roster(s.players), now)))
  }

  /** `addPlayer`: refused by a full room; the second player starts the game. */
  function Add(s: RoomState, roomId: RoomId, p: Player, now: int): Step
  {
    if |s.players| >= MaxPlayers then Step(s, [])
    else
      var t := s.(players := Put(s.players, p));
      if |t.players| == MaxPlayers then Start(t, roomId, now) else Step(t, [])
  }

  /** The countdown callback `startGame` schedules. */
  function Countdown(s: RoomState): Step
  {
    Step(s.(gameState := Playing), ToEach(s.players, GameStateChange))
  }

  /** `endGame(winnerId, reason)`. */
  function End(s: RoomState, winnerId: SocketId, reason: string, now: int): Step
  {
    Step(s.(gameState := Finished, winner := Some(winnerId)),
         EndGameMessages(s.players, winnerId, reason, Elapsed(s, now)))
  }

  /** `removePlayer`: a player leaving a game in progress hands the win to the one left. */
  function Remove(s: RoomState, playerId: SocketId, now: int): Step
  {
    if Lookup(s.players, playerId).None? then Step(s, [])
    else
      var t := s.(players := Without(s.players, playerId));
      if t.gameState == Playing && |t.players| == 1 then End(t, t.players[0].id, "opponent_disconnect", now)
      else Step(t, [])
  }

  /** `updatePlayerStats`: merges the statistics; a reported game over ends a game in progress by knockout. */
  function UpdateStats(s: RoomState, playerId: SocketId, stats: ClientStats, now: int): Step
  {
    var player := Lookup(s.players, playerId);
    if player.None? then Step(s, [])
    else
      var t := s.(players := Replace(s.players, playerId, Merge(player.value, stats)));
      var other := FirstOther(t.players, playerId);
      if stats.isGameOver == Some(true) && t.gameState == Playing && other.Some? then
        End(t, other.value.id, "knockout", now)
      else Step(t, [])
  }

  /** `sendAttack`: what the room relays for `cleared` lines cleared by `fromId`. */
  function Attack(s: RoomState, fromId: SocketId, cleared: int, now: int): seq<Sent>
  {
    var from := Lookup(s.players, fromId);
    if from.None? || s.gameState != Playing || ServerAttack(cleared) == 0 then []
    else ToEach(Without(s.players, fromId), AttackReceived(from.value.username, ServerAttack(cleared), now))
  }

  /** `broadcastGameState`. */
  function Broadcast(s: RoomState, now: int): seq<Sent>
  {
    if s.gameState == Playing then ToEach(s.players, GameUpdate(Standings(s.players), now)) else []
  }

  /** The reason a `gameEnd` report is recorded under. */
  function LossReason(isGameOver: bool, reason: string): string
  {
    if isGameOver then "game_over" else if reason != "" then reason else "manual"
  }

  /** The `gameEnd` handler: a playing room ends with the reporter's opponent as winner. */
  function ReportLoss(s: RoomState, reporterId: SocketId, isGameOver: bool, reason: string, now: int): Step
  {
    var other := FirstOther(s.players, reporterId);
    if s.gameState == Playing && other.Some? then End(s, other.value.id, LossReason(isGameOver, reason), now)
    else Step(s, [])
  }

  /**
   * Only `startGame` enters the countdown and only its callback leaves it: a
   * removal, a statistics update or a loss report never moves a room into or
   * out of `starting`.
   */
  lemma StartingUntouched(s: RoomState, playerId: SocketId, stats: ClientStats, isGameOver: bool, reason: string, now: int)
    ensures (Remove(s, playerId, now).state.gameState == Starting) == (s.gameState == Starting)
    ensures (UpdateStats(s, playerId, stats, now).state.gameState == Starting) == (s.gameState == Starting)
    ensures (ReportLoss(s, playerId, isGameOver, reason, now).state.gameState == Starting) == (s.gameState == Starting)
  {
  }

  // ---------------------------------------------------------------------------
  // What the room promises

  /**
   * A full room refuses a player and changes nothing; the first player just
   * joins; a second player with a new id starts the countdown and both hear
   * `gameStart` with the roster of the two.
   */
  lemma AddOutcomes(s: RoomState, roomId: RoomId, p: Player, now: int)
    requires RoomValid(s)
    ensures |s.players| >= MaxPlayers ==> Add(s, roomId, p, now) == Step(s, [])
    ensures s.players == [] ==> Add(s, roomId, p, now) == Step(s.(players := [p]), [])
    ensures |s.players| == 1 && s.players[0].id != p.id ==>
      var q := s.players[0];
      var r := Add(s, roomId, p, now);
      var roster := [RosterEntry(q.id, q.username), RosterEntry(p.id, p.username)];
      r.state == RoomState([q, p], Starting, Some(now), s.winner)
      && r.sent == [Sent(Socket(q.id), GameStart(roomId, roster, now)), Sent(Socket(p.id), GameStart(roomId, roster, now))]
  {
    if s.players == [] {
      assert Put(s.players, p) == [p];
      var t := s.(players := [p]);
      assert Add(s, roomId, p, now) == Step(t, []);
    }
    if |s.players| == 1 && s.players[0].id != p.id {
      var q := s.players[0];
      assert s.players == [q];
      assert Lookup([q], p.id).None?;
      assert Put([q], p) == [q, p];
      var roster := [RosterEntry(q.id, q.username), RosterEntry(p.id, p.username)];
      assert Roster([q, p]) == roster;
      var m := GameStart(roomId, roster, now);
      assert ToEach([q, p], m) == [Sent(Socket(q.id), m), Sent(Socket(p.id), m)];
    }
  }

  /**
   * When one of two players leaves a game in progress the survivor wins by
   * "opponent_disconnect"; otherwise only the player list changes.
   */
  lemma RemoveOutcomes(s: RoomState, playerId: SocketId, now: int)
    requires RoomValid(s)
    ensures var r := Remove(s, playerId, now);
      r.state.players == Without(s.players, playerId) && r.state.startTime == s.startTime
      && |r.state.players| == |s.players| - (if Lookup(s.players, playerId).Some? then 1 else 0)
    ensures var r := Remove(s, playerId, now);
      Lookup(s.players, playerId).Some? && s.gameState == Playing && |s.players| == 2 ==>
        var survivor := r.state.players[0];
        survivor in s.players && survivor.id != playerId
        && r.state.gameState == Finished && r.state.winner == Some(survivor.id)
        && r.sent == EndGameMessages(r.state.players, survivor.id, "opponent_disconnect", Elapsed(s, now))
    ensures var r := Remove(s, playerId, now);
      !(Lookup(s.players, playerId).Some? && s.gameState == Playing && |s.players| == 2) ==>
        r.state.gameState == s.gameState && r.state.winner == s.winner && r.sent == []
  {
    var found := Lookup(s.players, playerId);
    if found.None? {
      WithoutNone(s.players, playerId);
    } else {
      var k :| 0 <= k < |s.players| && s.players[k] == found.value;
      WithoutOne(s.players, k);
    }
  }

  /** Removing an id nobody has leaves the list as it is. */
  lemma {:induction false} WithoutNone(ps: seq<Player>, id: SocketId)
    requires Lookup(ps, id).None?
    ensures Without(ps, id) == ps
  {
    if ps != [] {
      var init := ps[..|ps| - 1];
      assert ps == init + [ps[|ps| - 1]];
      assert Lookup(init, id).None? by {
        forall q | q in init ensures q.id != id { assert q in ps; }
      }
      WithoutNone(init, id);
    }
  }

  /** With distinct ids, removing a present id shortens the list by exactly one. */
  lemma {:induction false} WithoutOne(ps: seq<Player>, k: nat)
    requires DistinctIds(ps) && k < |ps|
    ensures |Without(ps, ps[k].id)| == |ps| - 1
  {
    var id := ps[k].id;
    var init := ps[..|ps| - 1];
    var last := ps[|ps| - 1];
    assert ps == init + [last];
    assert DistinctIds(init) by {
      forall i, j | 0 <= i < j < |init| ensures init[i].id != init[j].id {
        assert init[i] == ps[i] && init[j] == ps[j];
      }
    }
    if k == |ps| - 1 {
      assert Lookup(init, id).None? by {
        forall q | q in init ensures q.id != id {
          var m :| 0 <= m < |init| && init[m] == q;
          assert ps[m] == q;
        }
      }
      WithoutNone(init, id);
    } else {
      assert init[k] == ps[k];
      WithoutOne(init, k);
      assert last.id != id;
    }
  }

  /** `updatePlayerStats` merges the reported statistics into the reporter's record, keeping every id. */
  lemma UpdateStatsMerges(s: RoomState, playerId: SocketId, stats: ClientStats, now: int)
    requires RoomValid(s) && Lookup(s.players, playerId).Some?
    ensures var r := UpdateStats(s, playerId, stats, now);
      var merged := Merge(Lookup(s.players, playerId).value, stats);
      r.state.players == Replace(s.players, playerId, merged) && Lookup(r.state.players, playerId) == Some(merged)
  {
    MergedFacts(s.players, playerId, Lookup(s.players, playerId).value, stats);
  }

  /** A reported game over while playing ends the game by knockout, the first other player winning. */
  lemma UpdateStatsKnockout(s: RoomState, playerId: SocketId, stats: ClientStats, now: int)
    requires RoomValid(s) && Lookup(s.players, playerId).Some?
    requires stats.isGameOver == Some(true) && s.gameState == Playing && FirstOther(s.players, playerId).Some?
    ensures var r := UpdateStats(s, playerId, stats, now);
      var w := FirstOther(s.players, playerId).value.id;
      r.state.gameState == Finished && r.state.winner == Some(w) && w != playerId
      && r.sent == EndGameMessages(r.state.players, w, "knockout", Elapsed(s, now))
  {
    var player := Lookup(s.players, playerId).value;
    var t := s.(players := Replace(s.players, playerId, Merge(player, stats)));
    var w := FirstOther(s.players, playerId).value.id;
    MergedFacts(s.players, playerId, player, stats);
    assert FirstOther(t.players, playerId).value.id == w;
    assert UpdateStats(s, playerId, stats, now) == End(t, w, "knockout", now);
    assert Elapsed(t, now) == Elapsed(s, now);
    assert End(t, w, "knockout", now).sent == EndGameMessages(t.players, w, "knockout", Elapsed(s, now));
  }

  /** Without a reported game over in a playing room, the status, the winner and the log stay as they were. */
  lemma UpdateStatsQuiet(s: RoomState, playerId: SocketId, stats: ClientStats, now: int)
    requires !(stats.isGameOver == Some(true) && s.gameState == Playing)
    ensures var r := UpdateStats(s, playerId, stats, now);
      r.state.gameState == s.gameState && r.state.winner == s.winner && r.sent == []
  {
  }

  lemma MergedFacts(ps: seq<Player>, playerId: SocketId, player: Player, stats: ClientStats)
    requires DistinctIds(ps) && player in ps && player.id == playerId
    ensures var merged := Merge(player, stats);
      var qs := Replace(ps, playerId, merged);
      Lookup(qs, playerId) == Some(merged)
      && (FirstOther(qs, playerId).Some? <==> FirstOther(ps, playerId).Some?)
      && (FirstOther(qs, playerId).Some? ==> FirstOther(qs, playerId).value.id == FirstOther(ps, playerId).value.id)
  {
    var merged := Merge(player, stats);
    var qs := Replace(ps, playerId, merged);
    var k :| 0 <= k < |ps| && ps[k] == player;
    ReplaceDistinct(ps, playerId, merged);
    assert qs[k] == merged;
    LookupAt(qs, k);
    SameIdsSameOther(ps, qs, playerId);
  }

  /** Two lists with the same ids position by position have the same first other id. */
  lemma {:induction false} SameIdsSameOther(a: seq<Player>, b: seq<Player>, id: SocketId)
    requires |a| == |b| && forall k :: 0 <= k < |a| ==> a[k].id == b[k].id
    ensures FirstOther(a, id).Some? <==> FirstOther(b, id).Some?
    ensures FirstOther(a, id).Some? ==> FirstOther(a, id).value.id == FirstOther(b, id).value.id
  {
    if a != [] && a[0].id == id {
      SameIdsSameOther(a[1..], b[1..], id);
    }
  }

  /** The reporter of a `gameEnd` loses: its opponent wins, for "game_over" or the stated reason. */
  lemma ReportLossOutcomes(s: RoomState, reporterId: SocketId, isGameOver: bool, reason: string, now: int)
    ensures var r := ReportLoss(s, reporterId, isGameOver, reason, now);
      s.gameState == Playing && FirstOther(s.players, reporterId).Some? ==>
        r.state.gameState == Finished && r.state.winner.Some? && r.state.winner.value != reporterId
        && Lookup(s.players, r.state.winner.value).Some?
        && r.state.players == s.players
        && forall m :: m in r.sent && m.msg.GameEnd? ==>
             m.msg.result.reason == (if isGameOver then "game_over" else if reason != "" then reason else "manual")
    ensures !(s.gameState == Playing && FirstOther(s.players, reporterId).Some?) ==>
      ReportLoss(s, reporterId, isGameOver, reason, now) == Step(s, [])
  {
    var other := FirstOther(s.players, reporterId);
    if s.gameState == Playing && other.Some? {
      var k :| 0 <= k < |s.players| && s.players[k] == other.value;
      var why := LossReason(isGameOver, reason);
      EndRoundShape(s.players, other.value.id, ResultOf(s.players, other.value.id, why, Elapsed(s, now)),
                    FirstOther(s.players, other.value.id), Elapsed(s, now), why);
      assert Lookup(s.players, other.value.id).Some? by {
        assert s.players[k].id == other.value.id;
      }
    }
  }

  /** A room created by `tryCreateMatch`: two `addPlayer` calls on a new room. */
  function Opened(roomId: RoomId, p1: Player, p2: Player, now: int): Step
  {
    var a := Add(NewRoom, roomId, p1, now);
    var b := Add(a.state, roomId, p2, now);
    Step(b.state, a.sent + b.sent)
  }

  /** Everything `tryCreateMatch` emits: the new room's messages, then `matchFound` to each player. */
  function MatchMessages(roomId: RoomId, p1: Player, p2: Player, now: int): seq<Sent>
  {
    Opened(roomId, p1, p2, now).sent
      + [Sent(Socket(p1.id), MatchFound(roomId, RosterEntry(p2.id, p2.username))),
         Sent(Socket(p2.id), MatchFound(roomId, RosterEntry(p1.id, p1.username)))]
  }

  /**
   * Two players with distinct ids make a room that is starting with both of
   * them; both hear `gameStart` before either hears `matchFound`.
   */
  lemma MatchOutcomes(roomId: RoomId, p1: Player, p2: Player, now: int)
    requires p1.id != p2.id
    ensures Opened(roomId, p1, p2, now).state == RoomState([p1, p2], Starting, Some(now), None)
    ensures var log := MatchMessages(roomId, p1, p2, now);
      var roster := [RosterEntry(p1.id, p1.username), RosterEntry(p2.id, p2.username)];
      log == [Sent(Socket(p1.id), GameStart(roomId, roster, now)), Sent(Socket(p2.id), GameStart(roomId, roster, now)),
              Sent(Socket(p1.id), MatchFound(roomId, RosterEntry(p2.id, p2.username))),
              Sent(Socket(p2.id), MatchFound(roomId, RosterEntry(p1.id, p1.username)))]
    ensures var log := MatchMessages(roomId, p1, p2, now);
      forall i, j :: 0 <= i < |log| && 0 <= j < |log| && log[i].msg.GameStart? && log[j].msg.MatchFound? ==> i < j
  {
    AddOutcomes(NewRoom, roomId, p1, now);
    var a := Add(NewRoom, roomId, p1, now);
    assert a.state.players == [p1] && a.sent == [];
    AddOutcomes(a.state, roomId, p2, now);
  }

  /** An operation reaching a room from a client or a disconnect. */
  datatype RoomEvent =
    | Leave(playerId: SocketId)
    | Stats(playerId: SocketId, stats: ClientStats)
    | Report(reporterId: SocketId, isGameOver: bool, reason: string)
    | AttackBy(fromId: SocketId, cleared: int)
    | Tick

  function Apply(s: RoomState, e: RoomEvent, now: int): Step
  {
    match e
    case Leave(id) => Remove(s, id, now)
    case Stats(id, stats) => UpdateStats(s, id, stats, now)
    case Report(id, over, reason) => ReportLoss(s, id, over, reason, now)
    case AttackBy(id, cleared) => Step(s, Attack(s, id, cleared, now))
    case Tick => Step(s, Broadcast(s, now))
  }

  /**
   * Every path to `endGame` first checks that the room is playing, so once
   * a game is finished no removal, knockout, loss report, attack or broadcast
   * changes its status or its winner.
   */
  lemma FinishedIsFinal(s: RoomState, e: RoomEvent, now: int)
    requires s.gameState == Finished
    ensures Apply(s, e, now).state.gameState == Finished
    ensures Apply(s, e, now).state.winner == s.winner
  {
  }

  /** The same events keep a valid room valid. */
  lemma EventKeepsValid(s: RoomState, e: RoomEvent, now: int)
    requires RoomValid(s)
    ensures RoomValid(Apply(s, e, now).state)
  {
    match e
    case Leave(id) =>
      WithoutDistinct(s.players, id);
    case Stats(id, stats) =>
      var player := Lookup(s.players, id);
      if player.Some? {
        ReplaceDistinct(s.players, id, Merge(player.value, stats));
      }
    case Report(_, _, _) =>
    case AttackBy(_, _) =>
    case Tick =>
  }

  /** Adding a player, starting, the countdown and ending keep a valid room valid too. */
  lemma LifecycleKeepsValid(s: RoomState, roomId: RoomId, p: Player, winnerId: SocketId, reason: string, now: int)
    requires RoomValid(s)
    ensures RoomValid(Add(s, roomId, p, now).state)
    ensures RoomValid(Countdown(s).state)
    ensures RoomValid(End(s, winnerId, reason, now).state)
  {
    if |s.players| < MaxPlayers {
      PutDistinct(s.players, p);
    }
  }

  /**
   * The attack relay: nothing unless the sender is in the room, the room is
   * playing and the table gives a non-zero amount; then every other player
   * receives exactly one `attackReceived` carrying that amount and the
   * sender none.
   */
  lemma AttackDelivery(s: RoomState, fromId: SocketId, cleared: int, now: int)
    requires RoomValid(s)
    ensures Attack(s, fromId, cleared, now) == [] <==>
      Lookup(s.players, fromId).None? || s.gameState != Playing || !(1 <= cleared <= 4) || |s.players| == 1
    ensures forall m :: m in Attack(s, fromId, cleared, now) ==>
      m.to != Socket(fromId) && m.msg.AttackReceived? && m.msg.lines == cleared
    ensures Lookup(s.players, fromId).Some? && s.gameState == Playing && 1 <= cleared <= 4 ==>
      forall q :: q in s.players && q.id != fromId ==>
        multiset(Attack(s, fromId, cleared, now))[Sent(Socket(q.id), AttackReceived(Lookup(s.players, fromId).value.username, cleared, now))] == 1
  {
    var from := Lookup(s.players, fromId);
    if from.Some? {
      var m := AttackReceived(from.value.username, ServerAttack(cleared), now);
      AttackReachesOthersOnce(s.players, fromId, m);
      var k :| 0 <= k < |s.players| && s.players[k] == from.value;
      WithoutOne(s.players, k);
      assert |ToEach(Without(s.players, fromId), m)| == |s.players| - 1;
    }
  }
}
