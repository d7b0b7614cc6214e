/** The rules of the game as its players know them: where the ball goes, which side scores,
    what the paddles do, how seats are taken and lost, and who is told what. */
module PongRules {
  import opened Decimal
  import opened UdpEndpoints
  import opened Pong
  import opened PongFrames
  import opened PongRuns

  // ----- the ball ----------------------------------------------------------

  /** The game goes on in this tick: both players are seated and neither has been silent
      for five seconds. */
  predicate Plays(g: Game) {
    && g.left.active && g.right.active
    && g.left.idle + 100 < 5000 && g.right.idle + 100 < 5000
  }

  /** Where the ball is on its way down and up again, a round of 22 rows: 0 to 11 down and
      11 back to 0 up. */
  function Phase(g: Game): int {
    if g.dy == 1 || g.ballY == 0 then g.ballY else 22 - g.ballY
  }

  function NextOf(phase: int): int {
    if phase < 21 then phase + 1 else 0
  }

  function RowOf(phase: int): int {
    if phase <= 11 then phase else 22 - phase
  }

  lemma RowIsPhase(g: Game)
    requires GameOk(g)
    ensures 0 <= Phase(g) < 22 && g.ballY == RowOf(Phase(g))
  {
  }

  /** Both paddles as they stand after this tick. */
  function LeftAfter(g: Game): int {
    Clamp(g.leftY + g.left.direction, 0, 9)
  }

  function RightAfter(g: Game): int {
    Clamp(g.rightY + g.right.direction, 0, 9)
  }

  predicate Covers(top: int, row: int) {
    top <= row <= top + 2
  }

  /** The whole flight: each tick takes the ball one row on and one column on.  At column 3
      the left paddle returns it to column 4 if it covers the row the ball comes to, at
      column 20 the right one returns it to column 19; one column past them it goes on to
      the edge, where the other side scores and the ball is served from the middle, away
      from the side that missed it. */
  lemma BallFlies(g: Game)
    requires GameOk(g) && Plays(g)
    ensures var row := RowOf(NextOf(Phase(g)));
            var t := Tick(g);
            && t.leftScore == g.leftScore + (if g.dx == 1 && g.ballX == 22 then 1 else 0)
            && t.rightScore == g.rightScore + (if g.dx == -1 && g.ballX == 1 then 1 else 0)
            && (if (g.dx == 1 && g.ballX == 22) || (g.dx == -1 && g.ballX == 1) then
                  t.ballX == 12 && t.ballY == 6 && t.dy == 1 && t.dx == -g.dx
                else
                  && Phase(t) == NextOf(Phase(g))
                  && (if g.dx == -1 && g.ballX == 3 && Covers(LeftAfter(g), row) then t.ballX == 4 && t.dx == 1
                      else if g.dx == 1 && g.ballX == 20 && Covers(RightAfter(g), row) then t.ballX == 19 && t.dx == -1
                      else t.ballX == g.ballX + g.dx && t.dx == g.dx))
  {
    hide Move;
    var a := AgeBoth(g);
    assert a == g.(left := g.left.(idle := g.left.idle + 100), right := g.right.(idle := g.right.idle + 100));
    BallMoves(a);
    assert Tick(g) == Printed(Move(a));
  }

  /** The same for the move alone. */
  lemma BallMoves(g: Game)
    requires BoardOk(g)
    ensures var row := RowOf(NextOf(Phase(g)));
            var t := Move(g);
            && t.leftScore == g.leftScore + (if g.dx == 1 && g.ballX == 22 then 1 else 0)
            && t.rightScore == g.rightScore + (if g.dx == -1 && g.ballX == 1 then 1 else 0)
            && (if (g.dx == 1 && g.ballX == 22) || (g.dx == -1 && g.ballX == 1) then
                  t.ballX == 12 && t.ballY == 6 && t.dy == 1 && t.dx == -g.dx
                else
                  && Phase(t) == NextOf(Phase(g))
                  && (if g.dx == -1 && g.ballX == 3 && Covers(LeftAfter(g), row) then t.ballX == 4 && t.dx == 1
                      else if g.dx == 1 && g.ballX == 20 && Covers(RightAfter(g), row) then t.ballX == 19 && t.dx == -1
                      else t.ballX == g.ballX + g.dx && t.dx == g.dx))
  {
    NextPhase(g);
    assert !ScoresLeft(g) && !ScoresRight(g) ==> Phase(Move(g)) == Phase(g.(ballY := NextY(g), dy := NextDy(g)));
    hide Phase, NextY, RowOf;
  }

  function NextDy(g: Game): int {
    if Bounces(g) then -g.dy else g.dy
  }

  lemma NextPhase(g: Game)
    requires BoardOk(g)
    ensures NextY(g) == RowOf(NextOf(Phase(g)))
    ensures Phase(g.(ballY := NextY(g), dy := NextDy(g))) == NextOf(Phase(g))
  {
  }

  /** Without two players the ball stands still; where a player has been silent for five
      seconds it stands in the middle, ready for a service to the right. */
  lemma BallStands(g: Game)
    requires !Plays(g)
    ensures var t := Tick(g);
            var lost := (g.left.active && g.left.idle + 100 >= 5000) || (g.right.active && g.right.idle + 100 >= 5000);
            && (t.ballX, t.ballY, t.dx, t.dy) == (if lost then (12, 6, 1, 1) else (g.ballX, g.ballY, g.dx, g.dy))
            && (t.leftY, t.rightY, t.leftScore, t.rightScore) == (g.leftY, g.rightY, g.leftScore, g.rightScore)
  {
  }

  // ----- paddles -----------------------------------------------------------

  /** The command of a seated player is what its paddle does from then on, one row in each
      tick and not beyond the board: U is up, towards row 0, D down, N stands still, and H
      goes on as before. */
  lemma PaddleFollows(g: Game, cmd: string, from: Endpoint)
    requires GameOk(g) && Plays(Datagram(g, cmd, from)) && Seat(g, from) >= 0
    ensures var t := Tick(Datagram(g, cmd, from));
            var (row, row', way) := if Seat(g, from) == 0 then (g.leftY, t.leftY, g.left.direction)
                                    else (g.rightY, t.rightY, g.right.direction);
            && (cmd == "U" ==> row' == if row > 0 then row - 1 else 0)
            && (cmd == "D" ==> row' == if row < 9 then row + 1 else 9)
            && (cmd == "N" ==> row' == row)
            && (cmd == "H" ==> row' == Clamp(row + way, 0, 9))
    ensures var t := Tick(Datagram(g, cmd, from));
            Steers(cmd) ==> if Seat(g, from) == 0 then t.rightY == Clamp(g.rightY + g.right.direction, 0, 9)
                            else t.leftY == Clamp(g.leftY + g.left.direction, 0, 9)
  {
    if Steers(cmd) {
      hide Tick, GameOk;
      var d := Datagram(g, cmd, from);
      assert d.leftY == g.leftY && d.rightY == g.rightY;
      assert GameOk(d) by { DatagramKeeps(g, cmd, from); }
      PaddlesMove(d);
    }
  }

  lemma PaddlesMove(g: Game)
    requires GameOk(g) && Plays(g)
    ensures Tick(g).leftY == LeftAfter(g) && Tick(g).rightY == RightAfter(g)
  {
  }

  // ----- seats -------------------------------------------------------------

  /** No player sits twice. */
  predicate SeatsDiffer(g: Game) {
    g.left.active && g.right.active ==> !SameEndpoint(g.left.endpoint, g.right.endpoint)
  }

  lemma SeatsStayDifferent(g: Game, i: Input)
    requires SeatsDiffer(g)
    ensures SeatsDiffer(Apply(g, i))
  {
  }

  lemma {:induction false} NobodySitsTwice(inputs: seq<Input>)
    ensures SeatsDiffer(Run(inputs).game)
  {
    hide Apply, WorldOk, Step;
    if inputs != [] {
      NobodySitsTwice(inputs[..|inputs| - 1]);
      SeatsStayDifferent(Run(inputs[..|inputs| - 1]).game, inputs[|inputs| - 1]);
    }
  }

  /** A player who asks for a seat has one afterwards, if one was free or already its own:
      the left one first.  Nobody else's seat changes, and a full table leaves all as it was. */
  lemma JoinSeats(g: Game, from: Endpoint)
    requires SeatsDiffer(g) && !from.Unspecified?
    ensures var d := Datagram(g, "J", from);
            && (Seat(g, from) >= 0 ==> Seat(d, from) == Seat(g, from) && d.left.active == g.left.active
                                       && d.right.active == g.right.active)
            && (Seat(g, from) < 0 && !g.left.active ==>
                  Seat(d, from) == 0 && d.left.direction == d.left.idle == 0 && d.right == g.right)
            && (Seat(g, from) < 0 && g.left.active && !g.right.active ==>
                  Seat(d, from) == 1 && d.right.direction == d.right.idle == 0 && d.left == g.left)
            && (Seat(g, from) < 0 && g.left.active && g.right.active ==> d == g)
            && (d.ballX, d.ballY, d.dx, d.dy) == (g.ballX, g.ballY, g.dx, g.dy)
  {
  }

  /** A player who quits loses its seat and the ball goes back to the middle; what anybody
      without a seat says, other than to join, changes nothing. */
  lemma QuitLeaves(g: Game, cmd: string, from: Endpoint)
    requires SeatsDiffer(g)
    ensures Seat(g, from) >= 0 && cmd == "Q" ==>
              var d := Datagram(g, cmd, from);
              && Seat(d, from) < 0 && d.ballX == 12 && d.ballY == 6 && d.dx == 1 && d.dy == 1
              && (Seat(g, from) == 0 ==> d.right == g.right) && (Seat(g, from) == 1 ==> d.left == g.left)
    ensures Seat(g, from) < 0 && cmd != "J" ==> Datagram(g, cmd, from) == g
  {
  }

  /** n ticks with nobody saying anything. */
  function Silent(g: Game, n: nat): Game {
    if n == 0 then g else Tick(Silent(g, n - 1))
  }

  /** A seat is lost after exactly five seconds of silence, fifty ticks after its player was
      last heard. */
  lemma {:induction false} SilenceCosts(g: Game, n: nat)
    requires GameOk(g)
    ensures GameOk(Silent(g, n))
    ensures g.left.active ==> (Silent(g, n).left.active <==> g.left.idle + 100 * n < 5000)
    ensures g.left.active && Silent(g, n).left.active ==> Silent(g, n).left.idle == g.left.idle + 100 * n
    ensures g.right.active ==> (Silent(g, n).right.active <==> g.right.idle + 100 * n < 5000)
    ensures g.right.active && Silent(g, n).right.active ==> Silent(g, n).right.idle == g.right.idle + 100 * n
  {
    hide Tick, GameOk;
    if n > 0 {
      SilenceCosts(g, n - 1);
      TickKeeps(Silent(g, n - 1));
      TickAges(Silent(g, n - 1));
    } else {
      assert GameOk(g) ==> (g.left.active ==> g.left.idle < 5000) && (g.right.active ==> g.right.idle < 5000) by {
        PlayersAreAwake(g);
      }
    }
  }

  lemma PlayersAreAwake(g: Game)
    ensures GameOk(g) ==> (g.left.active ==> g.left.idle < 5000) && (g.right.active ==> g.right.idle < 5000)
  {
  }

  lemma TickAges(g: Game)
    ensures Tick(g).left.active <==> g.left.active && g.left.idle + 100 < 5000
    ensures Tick(g).left.active ==> Tick(g).left.idle == g.left.idle + 100
    ensures Tick(g).right.active <==> g.right.active && g.right.idle + 100 < 5000
    ensures Tick(g).right.active ==> Tick(g).right.idle == g.right.idle + 100
  {
  }

  /** A seated player is heard, and its silence starts anew, exactly if it asks for its
      seat again or says one of the four commands. */
  lemma HeardStartsAnew(g: Game, cmd: string, from: Endpoint)
    requires SeatsDiffer(g) && Seat(g, from) >= 0 && cmd != "Q"
    ensures var d := Datagram(g, cmd, from);
            var known := cmd == "J" || cmd == "H" || cmd == "U" || cmd == "D" || cmd == "N";
            if Seat(g, from) == 0 then d.left.idle == (if known then 0 else g.left.idle) && d.right == g.right
            else d.right.idle == (if known then 0 else g.right.idle) && d.left == g.left
  {
  }

  // ----- who is told -------------------------------------------------------

  /** The endpoints of the seated players, the left one first. */
  function Seated(g: Game): seq<Endpoint> {
    (if g.left.active then [g.left.endpoint] else []) + (if g.right.active then [g.right.endpoint] else [])
  }

  /** The frame of the last snapshot, once to each of these endpoints and to nobody else. */
  predicate ToldAll(sent: seq<Mail>, to: seq<Endpoint>, w: World)
    requires w.history != []
  {
    && |sent| == |to|
    && forall k :: 0 <= k < |sent| ==>
         sent[k].party == to[k] && Natural(w.history[|w.history| - 1])
         && sent[k].text == Frame(w.history[|w.history| - 1])
  }

  /** The last snapshot shows the game as it is. */
  predicate ShowsNow(w: World) {
    w.history != [] &&
    var v := w.history[|w.history| - 1];
    && v.sequence == w.game.sequence && v.ly == w.game.leftY && v.ry == w.game.rightY
    && v.x == w.game.ballX && v.y == w.game.ballY && v.score1 == w.game.leftScore && v.score2 == w.game.rightScore
    && (v.occupied == 1 || v.occupied == 3 <==> w.game.left.active)
    && (v.occupied == 2 || v.occupied == 3 <==> w.game.right.active) && 0 <= v.occupied <= 3
  }

  lemma PhotographTells(w: World)
    requires GameOk(w.game)
    ensures var p := Photographed(w);
            && ShowsNow(p) && w.outbox <= p.outbox && p.history[..|w.history|] == w.history
            && |p.history| == |w.history| + 1
            && ToldAll(p.outbox[|w.outbox|..], Seated(w.game), p)
  {
    hide Frame;
    SnapshotNatural(w.game);
  }

  /** A tick tells every seated player the new state, and nobody anything else. */
  lemma TickTells(w: World)
    requires GameOk(w.game)
    ensures var t := Ticked(w);
            && ShowsNow(t) && |t.history| == |w.history| + 1 && w.outbox <= t.outbox
            && ToldAll(t.outbox[|w.outbox|..], Seated(t.game), t)
  {
    hide Frame, GameOk, Advanced, Photographed, ShowsNow, ToldAll;
    TickKeeps(w.game);
    PhotographTells(w.(game := Advanced(w.game)));
    SeatsShown(w.(game := Advanced(w.game)));
  }

  lemma SeatsShown(w: World)
    requires GameOk(w.game)
    ensures Photographed(w).game.left == w.game.left && Photographed(w).game.right == w.game.right
    ensures Seated(Photographed(w).game) == Seated(w.game)
  {
    hide Frame;
    SnapshotNatural(w.game);
  }

  /** Who asks for a seat is told first which one it has, or that there is none; a datagram
      that seats or unseats somebody then tells every seated player; others tell nobody. */
  lemma DatagramTells(w: World, cmd: string, from: Endpoint)
    requires GameOk(w.game) && SeatsDiffer(w.game) && !from.Unspecified?
    ensures var h := Heard(w, cmd, from);
            var full := Seat(w.game, from) < 0 && w.game.left.active && w.game.right.active;
            && w.outbox <= h.outbox
            && (cmd == "J" && full ==> h.outbox[|w.outbox|..] == [Mail(from, "FULL")] && h.history == w.history)
            && (cmd == "J" && !full ==>
                  && |h.outbox| > |w.outbox|
                  && h.outbox[|w.outbox|] == Mail(from, if Seat(h.game, from) == 0 then "W 1" else "W 2")
                  && ShowsNow(h) && ToldAll(h.outbox[|w.outbox| + 1..], Seated(h.game), h))
            && (cmd == "Q" && Seat(w.game, from) >= 0 ==>
                  ShowsNow(h) && ToldAll(h.outbox[|w.outbox|..], Seated(h.game), h))
            && (cmd != "J" && (cmd != "Q" || Seat(w.game, from) < 0) ==>
                  h.outbox == w.outbox && h.history == w.history)
  {
    hide Frame, GameOk, Photographed, ShowsNow, ToldAll, Handled;
    DatagramKeeps(w.game, cmd, from);
    var told := World(Handled(w.game, cmd, from), w.history, w.outbox + Greetings(w.game, cmd, from));
    if cmd == "J" {
      JoinSeats(w.game, from);
    } else {
      assert told.outbox == w.outbox;
    }
    if Prints(w.game, cmd, from) {
      PhotographTells(told);
      SeatsShown(told);
      SeatsByPlayers(told, from);
      DatagramSeats(w.game, cmd, from);
    }
  }

  lemma SeatsByPlayers(w: World, from: Endpoint)
    requires GameOk(w.game)
    ensures Seat(Photographed(w).game, from) == Seat(w.game, from)
  {
    hide Frame;
    SnapshotNatural(w.game);
  }

  lemma DatagramSeats(g: Game, cmd: string, from: Endpoint)
    ensures Seat(Datagram(g, cmd, from), from) == Seat(Handled(g, cmd, from), from)
  {
    hide Handled;
  }

  /** A snapshot in writing. */
  lemma WrittenSnapshot()
    ensures Natural(View(1, 4, 5, 12, 6, 7, 8, 3))
    ensures Frame(View(1, 4, 5, 12, 6, 7, 8, 3)) == "S 1 4 5 12 6 7 8 3"
  {
    hide Digits, FieldsText, FieldText;
    OneDigit(1, "1");
    OneDigit(4, "4");
    OneDigit(5, "5");
    OneDigit(6, "6");
    OneDigit(7, "7");
    OneDigit(8, "8");
    OneDigit(3, "3");
    Twelve();
    FieldsText8(1, 4, 5, 12, 6, 7, 8, 3);
    assert "S" + (" 1" + (" 4" + (" 5" + (" 12" + (" 6" + (" 7" + (" 8" + " 3"))))))) == "S 1 4 5 12 6 7 8 3";
  }

  lemma OneDigit(n: nat, text: string)
    requires n < 10 && |text| == 1 && text[0] == '0' + n as char
    ensures FieldText(n) == " " + text
  {
    assert Digits(n) == [Numeral(n)];
  }

  lemma Twelve()
    ensures FieldText(12) == " 12"
  {
    assert Digits(1) == "1";
    assert Digits(12) == "12";
  }

  lemma FieldsText8(a: nat, b: nat, c: nat, d: nat, e: nat, f: nat, g: nat, h: nat)
    ensures AllNatural([a, b, c, d, e, f, g, h])
    ensures FieldsText([a, b, c, d, e, f, g, h]) == FieldText(a) + (FieldText(b) + (FieldText(c) + (FieldText(d) +
              (FieldText(e) + (FieldText(f) + (FieldText(g) + FieldText(h)))))))
  {
    hide FieldText, FieldsText;
    NoFields();
    FieldsOf(h, []);
    FieldsOf(g, [h]);
    FieldsOf(f, [g, h]);
    FieldsOf(e, [f, g, h]);
    FieldsOf(d, [e, f, g, h]);
    FieldsOf(c, [d, e, f, g, h]);
    FieldsOf(b, [c, d, e, f, g, h]);
    FieldsOf(a, [b, c, d, e, f, g, h]);
    assert [h] == [h as int] + [];
    assert FieldText(h) + "" == FieldText(h);
    assert [g] + [h as int] == [g, h];
    assert [f as int] + [g, h] == [f, g, h];
    assert [e as int] + [f, g, h] == [e, f, g, h];
    assert [d as int] + [e, f, g, h] == [d, e, f, g, h];
    assert [c as int] + [d, e, f, g, h] == [c, d, e, f, g, h];
    assert [b as int] + [c, d, e, f, g, h] == [b, c, d, e, f, g, h];
    assert [a as int] + [b, c, d, e, f, g, h] == [a, b, c, d, e, f, g, h];
  }

  lemma NoFields()
    ensures AllNatural([]) && FieldsText([]) == ""
  {
  }

  lemma FieldsOf(n: nat, rest: seq<int>)
    requires AllNatural(rest)
    ensures AllNatural([n] + rest) && FieldsText([n] + rest) == FieldText(n) + FieldsText(rest)
  {
    assert ([n] + rest)[1..] == rest;
  }
}
