// The vocabulary of the battle server: players, the client statistics they
// report, the messages the server emits and to whom, and the player table
// that a room keeps (a JavaScript Map, whose iteration order is insertion
// order, modelled as a sequence with distinct ids).

module ServerProtocol {
  import opened Wrappers

  /** The server builds every player with `id == socketId`, so one id names both. */
  type SocketId = string
  type RoomId = string

  datatype Status = Waiting | Starting | Playing | Finished

  /** A player record as the server keeps it in the queue and in rooms. */
  datatype Player = Player(id: SocketId, username: string, score: int, lines: int, level: int, isGameOver: bool)

  /** The record `joinQueue` builds: zero score and lines, level 1, still alive. */
  function NewPlayer(id: SocketId, username: string): Player
  {
    Player(id, username, 0, 0, 1, false)
  }

  /** The statistics a client sends with `updateStats` / `gameUpdate`; an absent field is None. */
  datatype ClientStats = ClientStats(board: Option<string>, score: Option<int>, lines: Option<int>,
                                     level: Option<int>, isGameOver: Option<bool>)

  /** One entry of the rosters in `gameStart`, `roomJoined` and `matchFound`. */
  datatype RosterEntry = RosterEntry(id: SocketId, username: string)
  /** One entry of the player list of a game result. */
  datatype Summary = Summary(id: SocketId, username: string, score: int, lines: int, level: int)
  /** One entry of the player list of a `gameUpdate` broadcast. */
  datatype Standing = Standing(id: SocketId, username: string, score: int, lines: int, level: int, isGameOver: bool)
  datatype GameResult = GameResult(winner: SocketId, reason: string, duration: int, players: seq<Summary>)

  /** The events the server emits, with their payloads. */
  datatype Msg =
    | GameStart(roomId: RoomId, roster: seq<RosterEntry>, startTime: int)
    | GameStateChange
    | GameEnd(result: GameResult, isWinner: bool)
    | Victory(loserName: Option<string>, yourScore: int, opponentScore: int, duration: int, reason: string)
    | OpponentGameOver(opponentName: string, opponentScore: int, duration: int)
    | AttackReceived(from: string, lines: int, timestamp: int)
    | GameUpdate(standings: seq<Standing>, timestamp: int)
    | MatchFound(roomId: RoomId, opponent: RosterEntry)
    | QueueJoined(position: int, estimatedWait: int)
    | QueueLeft
    | OpponentMove(playerId: SocketId, move: string)
    | OpponentUpdate(playerId: SocketId, relayed: ClientStats)  // board, score, lines and level; isGameOver is None
    | RoomJoined(roomId: RoomId, members: seq<RosterEntry>)
    | OpponentReady(playerId: SocketId)
    | OpponentDisconnect(playerId: SocketId, username: string)

  /** `io.to(socketId)` addresses one socket; `socket.to(roomId)` every socket of a room but the sender. */
  datatype Recipient = Socket(id: SocketId) | RoomExcept(room: RoomId, sender: SocketId)
  datatype Sent = Sent(to: Recipient, msg: Msg)

  // ---------------------------------------------------------------------------
  // The player table

  predicate DistinctIds(ps: seq<Player>)
  {
    forall i, j :: 0 <= i < j < |ps| ==> ps[i].id != ps[j].id
  }

  /** `players.get(id)`. */
  function Lookup(ps: seq<Player>, id: SocketId): (r: Option<Player>)
    ensures r.Some? ==> r.value in ps && r.value.id == id
    ensures r.None? <==> forall p :: p in ps ==> p.id != id
  {
    if ps == [] then None
    else if ps[0].id == id then Some(ps[0])
    else
      var r := Lookup(ps[1..], id);
      assert forall p :: p in ps ==> p == ps[0] || p in ps[1..];
      r
  }

  /** `Array.from(players.values()).find(p => p.id !== id)`: the first player with another id. */
  function FirstOther(ps: seq<Player>, id: SocketId): (r: Option<Player>)
    ensures r.Some? ==> r.value in ps && r.value.id != id
    ensures r.None? <==> forall p :: p in ps ==> p.id == id
  {
    if ps == [] then None
    else if ps[0].id != id then Some(ps[0])
    else
      var r := FirstOther(ps[1..], id);
      assert forall p :: p in ps ==> p == ps[0] || p in ps[1..];
      r
  }

  /** The players whose id differs from `id`, in order: `Map.delete` and `Array.filter`. */
  function Without(ps: seq<Player>, id: SocketId): (r: seq<Player>)
    ensures forall p :: p in r <==> p in ps && p.id != id
    ensures |r| <= |ps|
  {
    if ps == [] then []
    else
      var init := Without(ps[..|ps| - 1], id);
      var last := ps[|ps| - 1];
      assert ps == ps[..|ps| - 1] + [last];
      if last.id != id then init + [last] else init
  }

  /** Removing from a prefix of a table extended by one more entry. */
  lemma WithoutPrefixStep(ps: seq<Player>, i: nat, id: SocketId)
    requires i < |ps|
    ensures Without(ps[..i + 1], id) ==
      if ps[i].id != id then Without(ps[..i], id) + [ps[i]] else Without(ps[..i], id)
  {
    assert ps[..i + 1][..i] == ps[..i];
  }

  /** `players.set(p.id, p)`: replaces the entry with that id in place, or appends. */
  function Put(ps: seq<Player>, p: Player): (r: seq<Player>)
    ensures Lookup(ps, p.id).None? ==> r == ps + [p]
    ensures Lookup(ps, p.id).Some? ==>
      |r| == |ps| && forall k :: 0 <= k < |ps| ==> r[k] == (if ps[k].id == p.id then p else ps[k])
  {
    if Lookup(ps, p.id).Some? then Replace(ps, p.id, p) else ps + [p]
  }

  /** `Object.assign(player, stats)` for the statistics a client reports:
      each of score, lines, level and game-over flag that the payload
      carries replaces the player's, and each it leaves out is kept. The
      payload is taken to carry no `id`, `username` or `roomId`; the copy
      of those onto the player is not modelled. */
  function Merge(p: Player, s: ClientStats): (r: Player)
    ensures r.id == p.id && r.username == p.username
    ensures s.score.Some? ==> r.score == s.score.value
    ensures s.score.None? ==> r.score == p.score
    ensures s.lines.Some? ==> r.lines == s.lines.value
    ensures s.lines.None? ==> r.lines == p.lines
    ensures s.level.Some? ==> r.level == s.level.value
    ensures s.level.None? ==> r.level == p.level
    ensures s.isGameOver.Some? ==> r.isGameOver == s.isGameOver.value
    ensures s.isGameOver.None? ==> r.isGameOver == p.isGameOver
  {
    p.(score := if s.score.Some? then s.score.value else p.score,
       lines := if s.lines.Some? then s.lines.value else p.lines,
       level := if s.level.Some? then s.level.value else p.level,
       isGameOver := if s.isGameOver.Some? then s.isGameOver.value else p.isGameOver)
  }

  /** Replaces the player with id `id` by `q` (the caller's `q` keeps that id). */
  function Replace(ps: seq<Player>, id: SocketId, q: Player): (r: seq<Player>)
    requires q.id == id
    ensures |r| == |ps|
    ensures forall k :: 0 <= k < |ps| ==> r[k] == (if ps[k].id == id then q else ps[k])
  {
    if ps == [] then []
    else [if ps[0].id == id then q else ps[0]] + Replace(ps[1..], id, q)
  }

  lemma WithoutDistinct(ps: seq<Player>, id: SocketId)
    requires DistinctIds(ps)
    ensures DistinctIds(Without(ps, id))
  {
    if ps != [] {
      var init := ps[..|ps| - 1];
      assert DistinctIds(init) by {
        forall i, j | 0 <= i < j < |init| ensures init[i].id != init[j].id {
          assert init[i] == ps[i] && init[j] == ps[j];
        }
      }
      WithoutDistinct(init, id);
      var last := ps[|ps| - 1];
      forall q | q in Without(init, id) ensures q.id != last.id {
        var k :| 0 <= k < |init| && init[k] == q;
        assert ps[k] == q;
      }
    }
  }

  lemma PutDistinct(ps: seq<Player>, p: Player)
    requires DistinctIds(ps)
    ensures DistinctIds(Put(ps, p))
    ensures Lookup(Put(ps, p), p.id) == Some(p)
  {
    var r := Put(ps, p);
    if Lookup(ps, p.id).Some? {
      ReplaceDistinct(ps, p.id, p);
      var k :| 0 <= k < |ps| && ps[k] == Lookup(ps, p.id).value;
      assert r[k] == p;
      LookupAt(r, k);
    } else {
      forall i, j | 0 <= i < j < |r| ensures r[i].id != r[j].id {
        if j < |ps| { assert r[i] == ps[i] && r[j] == ps[j]; } else { assert r[i] in ps; }
      }
      LookupAt(r, |ps|);
    }
  }

  lemma ReplaceDistinct(ps: seq<Player>, id: SocketId, q: Player)
    requires q.id == id && DistinctIds(ps)
    ensures DistinctIds(Replace(ps, id, q))
  {
    var r := Replace(ps, id, q);
    forall i, j | 0 <= i < j < |r| ensures r[i].id != r[j].id {
      assert r[i].id == ps[i].id && r[j].id == ps[j].id;
    }
  }

  /** With distinct ids, the entry `players.get(id)` finds is the one at any index holding that id. */
  lemma LookupAt(ps: seq<Player>, k: nat)
    requires DistinctIds(ps) && k < |ps|
    ensures Lookup(ps, ps[k].id) == Some(ps[k])
  {
    if k > 0 {
      var tail := ps[1..];
      assert DistinctIds(tail) by {
        forall i, j | 0 <= i < j < |tail| ensures tail[i].id != tail[j].id {
          assert tail[i] == ps[i + 1] && tail[j] == ps[j + 1];
        }
      }
      assert tail[k - 1] == ps[k];
      LookupAt(tail, k - 1);
    }
  }

  // ---------------------------------------------------------------------------
  // Payloads

  function Roster(ps: seq<Player>): (r: seq<RosterEntry>)
  {
    seq(|ps|, k requires 0 <= k < |ps| => RosterEntry(ps[k].id, ps[k].username))
  }

  /** `p.level || 1`: a level of 0 is reported as 1. */
  function ReportedLevel(level: int): int
  {
    if level == 0 then 1 else level
  }

  function Summaries(ps: seq<Player>): seq<Summary>
  {
    seq(|ps|, k requires 0 <= k < |ps| =>
      Summary(ps[k].id, ps[k].username, ps[k].score, ps[k].lines, ReportedLevel(ps[k].level)))
  }

  function Standings(ps: seq<Player>): seq<Standing>
  {
    seq(|ps|, k requires 0 <= k < |ps| =>
      Standing(ps[k].id, ps[k].username, ps[k].score, ps[k].lines, ReportedLevel(ps[k].level), ps[k].isGameOver))
  }

  /** The server's attack table: 1..4 cleared lines give as many garbage lines, anything else none. */
  function ServerAttack(cleared: int): (n: int)
    ensures 0 <= n <= 4
    ensures n != 0 <==> 1 <= cleared <= 4
    ensures n != 0 ==> n == cleared
  {
    match cleared
    case 1 => 1
    case 2 => 2
    case 3 => 3
    case 4 => 4
    case _ => 0
  }

  // ---------------------------------------------------------------------------
  // What the per-player loops emit

  /** One `io.to(p.socketId).emit(m)` per player, in table order. */
  function ToEach(ps: seq<Player>, m: Msg): (r: seq<Sent>)
    ensures |r| == |ps|
    ensures forall k :: 0 <= k < |ps| ==> r[k] == Sent(Socket(ps[k].id), m)
  {
    if ps == [] then [] else ToEach(ps[..|ps| - 1], m) + [Sent(Socket(ps[|ps| - 1].id), m)]
  }

  /** Appending one player to a table appends its message, and only it. */
  lemma ToEachSnoc(ps: seq<Player>, p: Player, m: Msg)
    ensures ToEach(ps + [p], m) == ToEach(ps, m) + [Sent(Socket(p.id), m)]
  {
    assert (ps + [p])[..|ps|] == ps;
  }

  /** One more entry of the table adds its message unless it is the excluded id. */
  lemma ToEachOthersStep(ps: seq<Player>, i: nat, id: SocketId, m: Msg)
    requires i < |ps|
    ensures ToEach(Without(ps[..i + 1], id), m) ==
      if ps[i].id != id then ToEach(Without(ps[..i], id), m) + [Sent(Socket(ps[i].id), m)]
      else ToEach(Without(ps[..i], id), m)
  {
    WithoutPrefixStep(ps, i, id);
    if ps[i].id != id {
      ToEachSnoc(Without(ps[..i], id), ps[i], m);
    }
  }

  /** With distinct ids, every listed player receives the message exactly once. */
  lemma {:induction false} ToEachOnce(ps: seq<Player>, m: Msg, q: Player)
    requires DistinctIds(ps) && q in ps
    ensures multiset(ToEach(ps, m))[Sent(Socket(q.id), m)] == 1
  {
    var init := ps[..|ps| - 1];
    var last := ps[|ps| - 1];
    assert ps == init + [last];
    ToEachCountSnoc(init, last, m, Sent(Socket(q.id), m));
    DistinctInit(ps);
    if q == last {
      ToEachAbsent(init, m, q.id);
    } else {
      var k :| 0 <= k < |ps| && ps[k] == q;
      assert k < |init| && init[k] == q;
      ToEachOnce(init, m, q);
    }
  }

  /** Dropping the last entry keeps the ids distinct, and no earlier entry shares the last id. */
  lemma DistinctInit(ps: seq<Player>)
    requires DistinctIds(ps) && ps != []
    ensures DistinctIds(ps[..|ps| - 1])
    ensures forall p :: p in ps[..|ps| - 1] ==> p.id != ps[|ps| - 1].id
  {
  }

  /** Appending a player adds one copy of its message to the multiset of messages. */
  lemma ToEachCountSnoc(init: seq<Player>, last: Player, m: Msg, t: Sent)
    ensures multiset(ToEach(init + [last], m))[t] ==
      multiset(ToEach(init, m))[t] + (if Sent(Socket(last.id), m) == t then 1 else 0)
  {
    ToEachSnoc(init, last, m);
  }

  /** A player not in the table is sent nothing. */
  lemma ToEachAbsent(ps: seq<Player>, m: Msg, id: SocketId)
    requires forall p :: p in ps ==> p.id != id
    ensures multiset(ToEach(ps, m))[Sent(Socket(id), m)] == 0
  {
    assert Sent(Socket(id), m) !in ToEach(ps, m);
  }

  /** The sender never receives its own attack; every other player of the room receives it once. */
  lemma AttackReachesOthersOnce(ps: seq<Player>, from: SocketId, m: Msg)
    requires DistinctIds(ps)
    ensures forall s :: s in ToEach(Without(ps, from), m) ==> s.msg == m && s.to != Socket(from)
    ensures forall q :: q in ps && q.id != from ==> multiset(ToEach(Without(ps, from), m))[Sent(Socket(q.id), m)] == 1
  {
    var os := Without(ps, from);
    WithoutDistinct(ps, from);
    forall s | s in ToEach(os, m) ensures s.msg == m && s.to != Socket(from) {
      var k :| 0 <= k < |os| && ToEach(os, m)[k] == s;
      assert os[k] in os;
    }
    forall q | q in ps && q.id != from ensures multiset(ToEach(os, m))[Sent(Socket(q.id), m)] == 1 {
      ToEachOnce(os, m, q);
    }
  }

  /** The `Victory` event the winner `p` receives. */
  function VictoryFor(p: Player, loser: Option<Player>, duration: int, reason: string): Msg
  {
    Victory(if loser.Some? then Some(loser.value.username) else None,
            p.score, if loser.Some? then loser.value.score else 0, duration, reason)
  }

  /** The `players.forEach` loop of `endGame`: `gameEnd` to each, followed by `Victory` for the winner. */
  function EndRound(ps: seq<Player>, winnerId: SocketId, result: GameResult, loser: Option<Player>,
                    duration: int, reason: string): seq<Sent>
  {
    if ps == [] then []
    else
      var p := ps[|ps| - 1];
      EndRound(ps[..|ps| - 1], winnerId, result, loser, duration, reason)
        + [Sent(Socket(p.id), GameEnd(result, p.id == winnerId))]
        + (if p.id == winnerId then [Sent(Socket(p.id), VictoryFor(p, loser, duration, reason))] else [])
  }

  function ResultOf(ps: seq<Player>, winnerId: SocketId, reason: string, duration: int): GameResult
  {
    GameResult(winnerId, reason, duration, Summaries(ps))
  }

  /** The extra notification the winner gets when the loser reported a game over. */
  function GameOverNotice(ps: seq<Player>, winnerId: SocketId, reason: string, duration: int): seq<Sent>
  {
    var w := Lookup(ps, winnerId);
    var l := FirstOther(ps, winnerId);
    if w.Some? && l.Some? && reason == "game_over" then
      [Sent(Socket(w.value.id), OpponentGameOver(l.value.username, l.value.score, duration))]
    else []
  }

  /** Everything `endGame(winnerId, reason)` emits. */
  function EndGameMessages(ps: seq<Player>, winnerId: SocketId, reason: string, duration: int): seq<Sent>
  {
    EndRound(ps, winnerId, ResultOf(ps, winnerId, reason, duration), FirstOther(ps, winnerId), duration, reason)
      + GameOverNotice(ps, winnerId, reason, duration)
  }

  lemma {:induction false} EndRoundShape(ps: seq<Player>, winnerId: SocketId, result: GameResult,
                                        loser: Option<Player>, duration: int, reason: string)
    ensures forall s :: s in EndRound(ps, winnerId, result, loser, duration, reason) ==>
      (s.msg.GameEnd? && s.msg.result == result && (s.msg.isWinner <==> s.to == Socket(winnerId)))
      || (s.msg.Victory? && s.to == Socket(winnerId))
    ensures forall p :: p in ps ==>
      Sent(Socket(p.id), GameEnd(result, p.id == winnerId)) in EndRound(ps, winnerId, result, loser, duration, reason)
  {
    if ps != [] {
      var init := ps[..|ps| - 1];
      EndRoundShape(init, winnerId, result, loser, duration, reason);
      assert ps == init + [ps[|ps| - 1]];
    }
  }

  /**
   * `endGame` tells every player the result with `isWinner` true exactly for
   * the winner; `Victory` and `OpponentGameOver` go to the winner only.
   */
  lemma EndGameAddressing(ps: seq<Player>, winnerId: SocketId, reason: string, duration: int)
    ensures forall p :: p in ps ==>
      Sent(Socket(p.id), GameEnd(ResultOf(ps, winnerId, reason, duration), p.id == winnerId))
        in EndGameMessages(ps, winnerId, reason, duration)
    ensures forall s :: s in EndGameMessages(ps, winnerId, reason, duration) && s.msg.GameEnd? ==>
      s.msg.result.winner == winnerId && (s.msg.isWinner <==> s.to == Socket(winnerId))
    ensures forall s :: s in EndGameMessages(ps, winnerId, reason, duration) ==>
      (s.msg.Victory? || s.msg.OpponentGameOver?) ==> s.to == Socket(winnerId)
  {
    EndRoundShape(ps, winnerId, ResultOf(ps, winnerId, reason, duration), FirstOther(ps, winnerId), duration, reason);
  }

  /**
   * `OpponentGameOver` is emitted iff the reason is "game_over" and both the
   * winner and some other player are in the room.
   */
  lemma OpponentGameOverIff(ps: seq<Player>, winnerId: SocketId, reason: string, duration: int)
    ensures (exists s :: s in EndGameMessages(ps, winnerId, reason, duration) && s.msg.OpponentGameOver?)
      <==> (reason == "game_over" && Lookup(ps, winnerId).Some? && FirstOther(ps, winnerId).Some?)
  {
    var result := ResultOf(ps, winnerId, reason, duration);
    EndRoundShape(ps, winnerId, result, FirstOther(ps, winnerId), duration, reason);
    var notice := GameOverNotice(ps, winnerId, reason, duration);
    if reason == "game_over" && Lookup(ps, winnerId).Some? && FirstOther(ps, winnerId).Some? {
      assert notice[0] in EndGameMessages(ps, winnerId, reason, duration);
    }
  }

  /** The number of `Victory` events in a log. */
  function Victories(log: seq<Sent>): nat
  {
    if log == [] then 0
    else Victories(log[..|log| - 1]) + (if log[|log| - 1].msg.Victory? then 1 else 0)
  }

  lemma {:induction false} VictoriesAppend(a: seq<Sent>, b: seq<Sent>)
    ensures Victories(a + b) == Victories(a) + Victories(b)
  {
    if b != [] {
      var bi := b[..|b| - 1];
      assert (a + b)[..|a + b| - 1] == a + bi;
      VictoriesAppend(a, bi);
    } else {
      assert a + b == a;
    }
  }

  lemma {:induction false} EndRoundVictories(ps: seq<Player>, winnerId: SocketId, result: GameResult,
                                            loser: Option<Player>, duration: int, reason: string)
    requires DistinctIds(ps)
    ensures Victories(EndRound(ps, winnerId, result, loser, duration, reason))
      == (if Lookup(ps, winnerId).Some? then 1 else 0)
  {
    if ps != [] {
      var init := ps[..|ps| - 1];
      var p := ps[|ps| - 1];
      DistinctInit(ps);
      EndRoundVictories(init, winnerId, result, loser, duration, reason);
      var before := EndRound(init, winnerId, result, loser, duration, reason);
      var gameEnd := [Sent(Socket(p.id), GameEnd(result, p.id == winnerId))];
      var victory := if p.id == winnerId then [Sent(Socket(p.id), VictoryFor(p, loser, duration, reason))] else [];
      assert EndRound(ps, winnerId, result, loser, duration, reason) == before + gameEnd + victory;
      VictoriesAppend(before, gameEnd);
      VictoriesAppend(before + gameEnd, victory);
      assert Victories(gameEnd) == 0 by { assert gameEnd[..0] == []; }
      if p.id == winnerId {
        assert Victories(victory) == 1 by { assert victory[..0] == []; }
        assert Lookup(init, winnerId).None?;
      } else {
        assert ps == init + [p];
        assert Lookup(ps, winnerId).Some? <==> Lookup(init, winnerId).Some? by {
          forall q | q in ps ensures q in init || q.id != winnerId { }
        }
      }
    }
  }

  /** With distinct ids the winner receives exactly one `Victory`, and nobody does when it is absent. */
  lemma OneVictory(ps: seq<Player>, winnerId: SocketId, reason: string, duration: int)
    requires DistinctIds(ps)
    ensures Victories(EndGameMessages(ps, winnerId, reason, duration)) == (if Lookup(ps, winnerId).Some? then 1 else 0)
  {
    var result := ResultOf(ps, winnerId, reason, duration);
    var notice := GameOverNotice(ps, winnerId, reason, duration);
    EndRoundVictories(ps, winnerId, result, FirstOther(ps, winnerId), duration, reason);
    VictoriesAppend(EndRound(ps, winnerId, result, FirstOther(ps, winnerId), duration, reason), notice);
    if notice != [] {
      assert notice[..0] == [];
    }
  }

  // ---------------------------------------------------------------------------
  // Matchmaking

  /** `removePlayerFromQueue(p.id)` followed by `push(p)`. */
  function Enqueue(waiting: seq<Player>, p: Player): seq<Player>
  {
    Without(waiting, p.id) + [p]
  }

  /** The queue after `tryCreateMatch`: the two oldest entries leave it when there are two. */
  function Paired(waiting: seq<Player>): seq<Player>
  {
    if |waiting| >= 2 then waiting[2..] else waiting
  }

  /** One matchmaking event: a player joins the queue, or an id leaves it (`leaveQueue`, disconnect). */
  datatype QueueOp = Join(p: Player) | Leave(id: SocketId)

  function QueueStep(waiting: seq<Player>, op: QueueOp): seq<Player>
  {
    match op
    case Join(p) => Paired(Enqueue(waiting, p))
    case Leave(id) => Without(waiting, id)
  }

  function RunQueue(waiting: seq<Player>, ops: seq<QueueOp>): seq<Player>
  {
    if ops == [] then waiting else QueueStep(RunQueue(waiting, ops[..|ops| - 1]), ops[|ops| - 1])
  }

  /** One step keeps the queue free of duplicate ids and at most one entry long. */
  lemma QueueStepSmall(waiting: seq<Player>, op: QueueOp)
    requires DistinctIds(waiting) && |waiting| <= 1
    ensures var w := QueueStep(waiting, op); DistinctIds(w) && |w| <= 1
  {
    match op
    case Join(p) =>
      var q := Enqueue(waiting, p);
      assert |q| <= 2;
      if |q| < 2 {
        assert q == [p];
      }
    case Leave(id) =>
      WithoutDistinct(waiting, id);
  }

  /** Starting from an empty queue, no sequence of joins and leaves produces a duplicate id or a second waiting player. */
  lemma {:induction false} QueueFromEmpty(ops: seq<QueueOp>)
    ensures var w := RunQueue([], ops); DistinctIds(w) && |w| <= 1
  {
    if ops != [] {
      QueueFromEmpty(ops[..|ops| - 1]);
      QueueStepSmall(RunQueue([], ops[..|ops| - 1]), ops[|ops| - 1]);
    }
  }

  /** A join that finds one other waiting player pairs the two, oldest first. */
  lemma JoinPairsOldestFirst(u: Player, p: Player)
    requires u.id != p.id
    ensures Enqueue([u], p) == [u, p]
    ensures Paired(Enqueue([u], p)) == []
  {
    assert Without([u], p.id) == [u] by {
      assert Without([u], p.id) == Without([u][..0], p.id) + [u];
    }
  }

  /** Removing an id from the queue twice is removing it once. */
  lemma {:induction false} WithoutIdempotent(ps: seq<Player>, id: SocketId)
    ensures Without(Without(ps, id), id) == Without(ps, id)
  {
    if ps != [] {
      var init := ps[..|ps| - 1];
      var last := ps[|ps| - 1];
      WithoutIdempotent(init, id);
      var once := Without(init, id);
      if last.id != id {
        assert Without(ps, id) == once + [last];
        assert (once + [last])[..|once + [last]| - 1] == once;
      }
    }
  }

  lemma EnqueueDistinct(waiting: seq<Player>, p: Player)
    requires DistinctIds(waiting)
    ensures DistinctIds(Enqueue(waiting, p))
  {
    var w := Without(waiting, p.id);
    WithoutDistinct(waiting, p.id);
    var q := w + [p];
    forall i, j | 0 <= i < j < |q| ensures q[i].id != q[j].id {
      if j < |w| { assert q[i] == w[i] && q[j] == w[j]; } else { assert q[i] in w; }
    }
  }

  /** The insertion order of the active rooms after `activeRooms.delete(roomId)`. */
  function DropRoom(order: seq<RoomId>, roomId: RoomId): (r: seq<RoomId>)
    ensures forall x :: x in r <==> x in order && x != roomId
  {
    if order == [] then []
    else
      var init := DropRoom(order[..|order| - 1], roomId);
      var last := order[|order| - 1];
      assert order == order[..|order| - 1] + [last];
      if last != roomId then init + [last] else init
  }

  predicate DistinctRooms(order: seq<RoomId>)
  {
    forall i, j :: 0 <= i < j < |order| ==> order[i] != order[j]
  }

  lemma {:induction false} DropRoomDistinct(order: seq<RoomId>, roomId: RoomId)
    requires DistinctRooms(order)
    ensures DistinctRooms(DropRoom(order, roomId))
  {
    if order != [] {
      var init := order[..|order| - 1];
      var last := order[|order| - 1];
      assert DistinctRooms(init) by {
        forall i, j | 0 <= i < j < |init| ensures init[i] != init[j] {
          assert init[i] == order[i] && init[j] == order[j];
        }
      }
      DropRoomDistinct(init, roomId);
      var d := DropRoom(init, roomId);
      if last != roomId {
        assert last !in init by {
          forall k | 0 <= k < |init| ensures init[k] != last { assert order[k] == init[k]; }
        }
        var r := d + [last];
        forall i, j | 0 <= i < j < |r| ensures r[i] != r[j] {
          if j < |d| { assert r[i] == d[i] && r[j] == d[j]; } else { assert r[i] in d; }
        }
      }
    }
  }

  /**
   * The index of the first room, in insertion order from `from` on, whose
   * players include `playerId`: the room `for (const [id, room] of activeRooms)`
   * stops at.
   */
  function FirstHolder(order: seq<RoomId>, members: map<RoomId, seq<Player>>, playerId: SocketId, from: nat): (r: Option<nat>)
    requires forall rid :: rid in order ==> rid in members
    ensures r.Some? ==> from <= r.value < |order| && Lookup(members[order[r.value]], playerId).Some?
    ensures r.Some? ==> forall k :: from <= k < r.value ==> Lookup(members[order[k]], playerId).None?
    ensures r.None? ==> forall k :: from <= k < |order| ==> Lookup(members[order[k]], playerId).None?
    decreases |order| - from
  {
    if from >= |order| then None
    else if Lookup(members[order[from]], playerId).Some? then Some(from)
    else FirstHolder(order, members, playerId, from + 1)
  }

  // ---------------------------------------------------------------------------
  // Text

  function DigitChar(d: nat): char
    requires d < 10
  {
    "0123456789"[d]
  }

  /** Decimal rendering of a natural number, as a template literal prints it. */
  function NatText(n: nat): string
  {
    if n < 10 then [DigitChar(n)] else NatText(n / 10) + [DigitChar(n % 10)]
  }

  /** `data.username || \`Joueur${n}\``: the empty name is falsy and replaced. */
  function ChosenName(requested: string, n: nat): (name: string)
    ensures requested != "" ==> name == requested
    ensures requested == "" ==> |name| > 6 && name[..6] == "Joueur"
  {
    if requested != "" then requested else "Joueur" + NatText(n)
  }
}
