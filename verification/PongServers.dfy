/** The server object. */
module PongServers {
  import opened UdpEndpoints
  import opened Pong
  import opened PongFrames
  import opened PongRuns

  /** The server's state record. */
  datatype State = State(leftY: int, rightY: int, ballX: int, ballY: int,
                         leftScore: int, rightScore: int, sequence: nat)

  class PongServer {
    const players: array<Player>
    var state: State
    var dx: int
    var dy: int
    var accumulator: int
    var running: bool
    var polling: bool
    var outbox: seq<Mail>
    ghost var history: seq<View>

    ghost function Current(): Game
      reads this, players
      requires players.Length == 2
    {
      Game(players[0], players[1], state.leftY, state.rightY, state.ballX, state.ballY,
           state.leftScore, state.rightScore, state.sequence, dx, dy, accumulator)
    }

    ghost function Whole(): World
      reads this, players
      requires players.Length == 2
    {
      World(Current(), history, outbox)
    }

    ghost predicate Valid()
      reads this, players
    {
      players.Length == 2 && WorldOk(Whole()) && TimeOk(Current())
    }

    constructor ()
      ensures Valid() && fresh(players) && Whole() == NewWorld && !running && !polling
    {
      players := new Player[2](_ => Nobody);
      state := State(4, 4, WIDTH / 2, HEIGHT / 2, 0, 0, 0);
      dx, dy, accumulator := 1, 1, 0;
      running, polling := false, false;
      outbox, history := [], [];
      new;
      NewWorldOk();
    }

    /** The system's answers to binding and registration are inputs. */
    method Start(port: int, bound: bool, added: bool) returns (ok: bool)
      modifies `running
      ensures ok == (!old(running) && !polling && 0 <= port <= 65535 && bound && added)
      ensures running == (old(running) || ok)
    {
      if running || polling || port < 0 || port > 65535 || !bound {
        return false;
      }
      if !added {
        return false;
      }
      running := true;
      return true;
    }

    method PlayerCount() returns (n: int)
      requires players.Length == 2
      ensures n == 2 <==> BothActive(Current())
      ensures n == 0 <==> !players[0].active && !players[1].active
      ensures 0 <= n <= 2
    {
      n := (if players[0].active then 1 else 0) + (if players[1].active then 1 else 0);
    }

    method FindSeat(from: Endpoint) returns (who: int)
      requires players.Length == 2
      ensures who == Seat(Current(), from) && -1 <= who < 2
    {
      for i := 0 to 2
        invariant forall k :: 0 <= k < i ==> !(players[k].active && SameEndpoint(players[k].endpoint, from))
      {
        if players[i].active && SameEndpoint(players[i].endpoint, from) {
          return i;
        }
      }
      return -1;
    }

    method Reply(to: Endpoint, text: string)
      modifies `outbox
      ensures outbox == old(outbox) + [Mail(to, text)]
    {
      outbox := outbox + [Mail(to, text)];
    }

    method CentreBall(direction: int)
      requires players.Length == 2
      modifies `state, `dx, `dy
      ensures Current() == ResetBall(old(Current()), direction)
    {
      state := state.(ballX := WIDTH / 2, ballY := HEIGHT / 2);
      dx := direction;
      dy := 1;
    }

    /** Number and print the state, and send it to the seated players. */
    method TakeSnapshot()
      requires players.Length == 2 && GameOk(Current())
      modifies `state, `outbox, `history
      ensures Whole() == Photographed(old(Whole()))
    {
      hide GameOk, Frame;
      ghost var before := Current();
      var s := View(state.sequence + 1, state.leftY, state.rightY, state.ballX, state.ballY,
                    state.leftScore, state.rightScore,
                    (if players[0].active then 1 else 0) + (if players[1].active then 2 else 0));
      SnapshotNatural(before);
      state := state.(sequence := state.sequence + 1);
      history := history + [s];
      var frame := Frame(s);
      ghost var sent := outbox;
      for i := 0 to 2
        modifies `outbox
        invariant outbox == sent + (if i > 0 && players[0].active then [Mail(players[0].endpoint, frame)] else [])
                                 + (if i > 1 && players[1].active then [Mail(players[1].endpoint, frame)] else [])
      {
        if players[i].active {
          Reply(players[i].endpoint, frame);
        }
      }
      assert outbox == sent + Broadcast(before);
    }

    method AgePlayers()
      requires players.Length == 2
      modifies this, players
      ensures Current() == AgeBoth(old(Current()))
      ensures history == old(history) && outbox == old(outbox) && running == old(running) && polling == old(polling)
    {
      ghost var g := Current();
      for i := 0 to 2
        invariant players[0] == if i > 0 then Age(g.left) else g.left
        invariant players[1] == if i > 1 then Age(g.right) else g.right
        invariant var reset := (i > 0 && Expires(g.left)) || (i > 1 && Expires(g.right));
                  Current() == (if reset then ResetBall(g, 1) else g).(left := players[0], right := players[1])
        invariant history == old(history) && outbox == old(outbox) && running == old(running) && polling == old(polling)
      {
        if players[i].active {
          players[i] := players[i].(idle := players[i].idle + TICK_MS);
          if players[i].idle >= IDLE_MS {
            players[i] := Nobody;
            CentreBall(1);
          }
        }
      }
    }

    method MoveBall()
      requires players.Length == 2
      modifies `state, `dx, `dy
      ensures Current() == Move(old(Current()))
    {
      state := state.(leftY := Clamp(state.leftY + players[0].direction, 0, HEIGHT - PADDLE),
                      rightY := Clamp(state.rightY + players[1].direction, 0, HEIGHT - PADDLE));
      var nextY := state.ballY + dy;
      if nextY < 0 || nextY >= HEIGHT {
        dy := -dy;
        nextY := state.ballY + dy;
      }
      var nextX := state.ballX + dx;
      if nextX == 2 && dx < 0 && state.leftY <= nextY < state.leftY + PADDLE {
        dx := 1;
        nextX := state.ballX + dx;
      } else if nextX == WIDTH - 3 && dx > 0 && state.rightY <= nextY < state.rightY + PADDLE {
        dx := -1;
        nextX := state.ballX + dx;
      }
      state := state.(ballX := nextX, ballY := nextY);
      if nextX <= 0 {
        state := state.(rightScore := state.rightScore + 1);
        CentreBall(1);
      } else if nextX >= WIDTH - 1 {
        state := state.(leftScore := state.leftScore + 1);
        CentreBall(-1);
      }
    }

    method TickOnce()
      requires players.Length == 2 && GameOk(Current())
      modifies this, players
      ensures Whole() == Ticked(old(Whole()))
      ensures running == old(running) && polling == old(polling)
    {
      hide GameOk, AgeBoth, Move, Photographed;
      TickKeeps(Current());
      AgePlayers();
      var count := PlayerCount();
      if count == 2 {
        MoveBall();
      }
      TakeSnapshot();
    }

    /** Time is ignored while stopped and while polling. */
    method Advance(elapsed: int)
      requires Valid()
      modifies this, players
      ensures Valid() && running == old(running) && polling == old(polling)
      ensures Whole() == if old(running) && !old(polling) && elapsed > 0
                         then Elapsed(old(Whole()), elapsed) else old(Whole())
    {
      hide WorldOk, Photographed;
      if !running || polling || elapsed <= 0 {
        return;
      }
      ghost var w := Whole();
      ghost var budget := Budget(w.game, elapsed);
      accumulator := accumulator + (if elapsed < 4 * TICK_MS then elapsed else 4 * TICK_MS);
      ghost var n := 0;
      while accumulator >= TICK_MS
        invariant n >= 0 && players.Length == 2 && running == old(running) && polling == old(polling)
        invariant Whole() == WithTime(TickedTimes(w, n), budget - n * TICK_MS)
        invariant accumulator == budget - n * TICK_MS && accumulator >= 0
        decreases accumulator
      {
        WithTimeKeeps(TickedTimes(w, n), budget - (n + 1) * TICK_MS);
        TickIgnoresTime(TickedTimes(w, n), budget - (n + 1) * TICK_MS);
        accumulator := accumulator - TICK_MS;
        assert Whole() == WithTime(TickedTimes(w, n), budget - (n + 1) * TICK_MS);
        TickOnce();
        n := n + 1;
      }
      assert n == budget / TICK_MS;
      assert Whole() == Elapsed(w, elapsed);
    }

    /** Take a free seat if not seated yet. */
    method TakeSeat(seated: int, from: Endpoint) returns (who: int)
      requires players.Length == 2 && seated == Seat(Current(), from)
      modifies players
      ensures who == SeatForJoin(old(Current()), from)
      ensures who >= 0 ==> Current() == Join(old(Current()), from)
      ensures who < 0 ==> Current() == old(Current())
    {
      who := seated;
      if who < 0 {
        for i := 0 to 2
          invariant who < 0 && Current() == old(Current())
          invariant forall k :: 0 <= k < i ==> players[k].active
        {
          if !players[i].active {
            who := i;
            players[i] := Player(true, from, 0, 0);
            break;
          }
        }
      }
      if who >= 0 {
        players[who] := players[who].(idle := 0);
      }
    }

    method HearJoin(seated: int, from: Endpoint)
      requires Valid() && seated == Seat(Current(), from)
      modifies players, `state, `outbox, `history
      ensures players.Length == 2 && Whole() == Heard(old(Whole()), "J", from)
    {
      hide GameOk, HistoryOk, OutboxOk, Photographed, Seat;
      DatagramKeeps(Current(), "J", from);
      var who := TakeSeat(seated, from);
      if who < 0 {
        Reply(from, "FULL");
        FullTable(old(Current()), from);
      } else {
        Reply(from, if who == 0 then "W 1" else "W 2");
        TakeSnapshot();
      }
    }

    method Steer(who: int, cmd: string)
      requires players.Length == 2 && 0 <= who < 2
      modifies players
      ensures var g := old(Current());
              Current() == g.(left := if who == 0 && Steers(cmd) then Steered(g.left, cmd) else g.left,
                              right := if who == 1 && Steers(cmd) then Steered(g.right, cmd) else g.right)
    {
      if cmd == "H" || cmd == "U" || cmd == "D" || cmd == "N" {
        players[who] := players[who].(idle := 0);
        if cmd == "U" {
          players[who] := players[who].(direction := -1);
        }
        if cmd == "D" {
          players[who] := players[who].(direction := 1);
        }
        if cmd == "N" {
          players[who] := players[who].(direction := 0);
        }
      }
    }

    /** A datagram from the network; it counts only while running and if it is
        neither empty nor longer than 32 bytes. */
    method ReceiveDatagram(cmd: string, from: Endpoint)
      requires Valid()
      modifies this, players
      ensures Valid() && running == old(running) && polling == old(polling)
      ensures Whole() == if old(running) && 0 < |cmd| <= 32 then Heard(old(Whole()), cmd, from) else old(Whole())
    {
      hide GameOk, HistoryOk, OutboxOk, Photographed, Seat, SeatForJoin;
      if !running || |cmd| == 0 || |cmd| > 32 {
        return;
      }
      ghost var w := Whole();
      HeardKeeps(w, cmd, from);
      var who := FindSeat(from);
      if cmd == "J" {
        HearJoin(who, from);
      } else if who >= 0 {
        if cmd == "Q" {
          players[who] := Nobody;
          CentreBall(1);
          LeaveKeeps(w.game, who);
          HeardQuit(w, from);
          TakeSnapshot();
        } else {
          HeardSteering(w, cmd, from);
          Steer(who, cmd);
        }
      } else {
        HeardStranger(w, cmd, from);
      }
    }

    /** The events of one poll; the callback cannot be entered while stopped, and
        neither advance nor stop does anything while it runs. */
    method Poll(arrived: seq<Mail>, count: int) returns (result: int)
      requires Valid()
      modifies this, players
      ensures Valid() && running == old(running) && polling == old(polling)
      ensures result == if old(running) && !old(polling) then count else -1
      ensures Whole() == if old(running) && !old(polling) then AllHeard(old(Whole()), arrived) else old(Whole())
    {
      hide WorldOk, Heard;
      if !running || polling {
        return -1;
      }
      polling := true;
      ghost var w := Whole();
      assert arrived[..0] == [];
      for k := 0 to |arrived|
        invariant Valid() && running && polling
        invariant Whole() == AllHeard(w, arrived[..k])
      {
        assert arrived[..k + 1][..k] == arrived[..k];
        ReceiveDatagram(arrived[k].text, arrived[k].party);
      }
      assert arrived[..|arrived|] == arrived;
      polling := false;
      result := count;
    }

    method Stop()
      requires Valid()
      modifies this, players
      ensures Valid() && polling == old(polling)
      ensures running == (old(running) && old(polling))
      ensures Whole() == if old(polling) then old(Whole()) else Stopped(old(Whole()))
    {
      if polling {
        return;
      }
      StoppedKeeps(Whole());
      players[0] := Nobody;
      players[1] := Nobody;
      running := false;
      accumulator := 0;
    }
  }
}
