/** What a Pong server has printed and sent over its whole life. */
module PongRuns {
  import opened UdpEndpoints
  import opened Pong
  import opened PongFrames
  import opened Wrappers

  /** A datagram on its way to, or from, an endpoint. */
  datatype Mail = Mail(party: Endpoint, text: string)

  /** The game, every snapshot ever printed, and every datagram ever sent. */
  datatype World = World(game: Game, history: seq<View>, outbox: seq<Mail>)

  const NewWorld := World(NewGame, [], [])

  lemma SnapshotNatural(g: Game)
    requires GameOk(g)
    ensures Natural(Snapshot(g))
  {
  }

  /** The frame goes to every seated player. */
  function Broadcast(g: Game): seq<Mail>
    requires GameOk(g)
  {
    SnapshotNatural(g);
    (if g.left.active then [Mail(g.left.endpoint, Frame(Snapshot(g)))] else []) +
    (if g.right.active then [Mail(g.right.endpoint, Frame(Snapshot(g)))] else [])
  }

  function Photographed(w: World): World
    requires GameOk(w.game)
  {
    World(Printed(w.game), w.history + [Snapshot(w.game)], w.outbox + Broadcast(w.game))
  }

  function Ticked(w: World): World
    requires GameOk(w.game)
  {
    TickKeeps(w.game);
    Photographed(w.(game := Advanced(w.game)))
  }

  /** A player asking for a seat is told which one it has, or that the table is full. */
  function Greetings(g: Game, cmd: string, from: Endpoint): seq<Mail> {
    if cmd != "J" then []
    else if SeatForJoin(g, from) < 0 then [Mail(from, "FULL")]
    else if SeatForJoin(g, from) == 0 then [Mail(from, "W 1")]
    else [Mail(from, "W 2")]
  }

  function Heard(w: World, cmd: string, from: Endpoint): World
    requires GameOk(w.game)
  {
    DatagramKeeps(w.game, cmd, from);
    var told := World(Handled(w.game, cmd, from), w.history, w.outbox + Greetings(w.game, cmd, from));
    if Prints(w.game, cmd, from) then Photographed(told) else told
  }

  function Stopped(w: World): World {
    w.(game := Halted(w.game))
  }

  // ----- what is kept ------------------------------------------------------

  /** A view of this game's past: on the board, and no score higher than now. */
  predicate PastView(v: View, g: Game) {
    && Natural(v) && v.ly <= 9 && v.ry <= 9 && v.x < 24 && v.y < 12 && v.occupied <= 3
    && v.score1 <= g.leftScore && v.score2 <= g.rightScore
  }

  predicate HistoryOk(history: seq<View>, g: Game) {
    && Numbered(history) && |history| == g.sequence
    && forall i :: 0 <= i < |history| ==> PastView(history[i], g)
  }

  predicate OutboxOk(history: seq<View>, outbox: seq<Mail>) {
    forall k :: 0 <= k < |outbox| ==> Greeting(outbox[k].text) || IsFrameOf(history, outbox[k].text)
  }

  predicate WorldOk(w: World) {
    GameOk(w.game) && HistoryOk(w.history, w.game) && OutboxOk(w.history, w.outbox)
  }

  /** Between calls less than one tick of time waits to be played. */
  predicate TimeOk(g: Game) {
    0 <= g.accumulator < TICK_MS
  }

  lemma HistoryCarries(history: seq<View>, g: Game, g1: Game)
    requires HistoryOk(history, g) && g1.sequence == g.sequence
    requires g1.leftScore >= g.leftScore && g1.rightScore >= g.rightScore
    ensures HistoryOk(history, g1)
  {
  }

  lemma OutboxCarries(history: seq<View>, v: View, outbox: seq<Mail>)
    requires OutboxOk(history, outbox)
    ensures OutboxOk(history + [v], outbox)
  {
    hide Frame, Natural, Greeting;
    var longer := history + [v];
    forall k | 0 <= k < |outbox| && !Greeting(outbox[k].text)
      ensures IsFrameOf(longer, outbox[k].text)
    {
      var i :| 0 <= i < |history| && Natural(history[i]) && outbox[k].text == Frame(history[i]);
      assert longer[i] == history[i];
    }
  }

  lemma PhotographedKeeps(w: World)
    requires WorldOk(w)
    ensures WorldOk(Photographed(w))
  {
    var g := w.game;
    SnapshotNatural(g);
    var v := Snapshot(g);
    var longer := w.history + [v];
    assert PastView(v, g);
    assert HistoryOk(longer, Printed(g));
    assert OutboxOk(longer, w.outbox + Broadcast(g)) by {
      hide Frame, GameOk, HistoryOk;
      OutboxCarries(w.history, v, w.outbox);
      assert longer[|w.history|] == v;
      assert IsFrameOf(longer, Frame(v));
    }
  }

  lemma ScoresGrow(g: Game)
    ensures Advanced(g).leftScore >= g.leftScore && Advanced(g).rightScore >= g.rightScore
    ensures Advanced(g).sequence == g.sequence && Advanced(g).accumulator == g.accumulator
  {
  }

  lemma TickedKeeps(w: World)
    requires WorldOk(w)
    ensures WorldOk(Ticked(w)) && Ticked(w).game == Tick(w.game)
    ensures Ticked(w).game.accumulator == w.game.accumulator
  {
    hide GameOk, OutboxOk, Advanced, Snapshot, Broadcast;
    TickKeeps(w.game);
    ScoresGrow(w.game);
    HistoryCarries(w.history, w.game, Advanced(w.game));
    PhotographedKeeps(w.(game := Advanced(w.game)));
  }

  lemma HandledKeepsScores(g: Game, cmd: string, from: Endpoint)
    ensures Handled(g, cmd, from).leftScore == g.leftScore && Handled(g, cmd, from).rightScore == g.rightScore
    ensures Handled(g, cmd, from).sequence == g.sequence
    ensures Handled(g, cmd, from).accumulator == g.accumulator
  {
  }

  lemma HeardKeeps(w: World, cmd: string, from: Endpoint)
    requires WorldOk(w)
    ensures WorldOk(Heard(w, cmd, from)) && Heard(w, cmd, from).game == Datagram(w.game, cmd, from)
    ensures Heard(w, cmd, from).game.accumulator == w.game.accumulator
  {
    hide GameOk, Handled, Snapshot, Broadcast, Prints, Seat, SeatForJoin, IsFrameOf;
    DatagramKeeps(w.game, cmd, from);
    HandledKeepsScores(w.game, cmd, from);
    var g1 := Handled(w.game, cmd, from);
    HistoryCarries(w.history, w.game, g1);
    var told := World(g1, w.history, w.outbox + Greetings(w.game, cmd, from));
    assert OutboxOk(told.history, told.outbox);
    if Prints(w.game, cmd, from) {
      PhotographedKeeps(told);
    }
  }

  lemma StoppedKeeps(w: World)
    requires WorldOk(w)
    ensures WorldOk(Stopped(w))
  {
    HistoryCarries(w.history, w.game, Halted(w.game));
  }

  /** A join that finds both seats taken leaves the game alone. */
  lemma FullTable(g: Game, from: Endpoint)
    requires SeatForJoin(g, from) < 0
    ensures Join(g, from) == g
  {
  }

  lemma HeardQuit(w: World, from: Endpoint)
    requires GameOk(w.game) && Seat(w.game, from) >= 0 && GameOk(Leave(w.game, Seat(w.game, from)))
    ensures Heard(w, "Q", from) == Photographed(w.(game := Leave(w.game, Seat(w.game, from))))
  {
    hide Leave, Photographed, Seat, GameOk;
    assert w.outbox + Greetings(w.game, "Q", from) == w.outbox;
  }

  lemma HeardSteering(w: World, cmd: string, from: Endpoint)
    requires GameOk(w.game) && cmd != "J" && cmd != "Q" && Seat(w.game, from) >= 0
    ensures var g := w.game; var who := Seat(g, from);
            Heard(w, cmd, from) ==
            w.(game := g.(left := if who == 0 && Steers(cmd) then Steered(g.left, cmd) else g.left,
                          right := if who == 1 && Steers(cmd) then Steered(g.right, cmd) else g.right))
  {
    hide Seat, GameOk;
    assert w.outbox + Greetings(w.game, cmd, from) == w.outbox;
  }

  lemma HeardStranger(w: World, cmd: string, from: Endpoint)
    requires GameOk(w.game) && cmd != "J" && Seat(w.game, from) < 0
    ensures Heard(w, cmd, from) == w
  {
    hide Seat, GameOk;
    assert w.outbox + Greetings(w.game, cmd, from) == w.outbox;
  }

  /** The datagrams of one poll, in order; empty and oversized ones are dropped. */
  function AllHeard(w: World, arrived: seq<Mail>): (r: World)
    requires WorldOk(w)
    ensures WorldOk(r) && r.game.accumulator == w.game.accumulator
  {
    if arrived == [] then w
    else
      var before := AllHeard(w, arrived[..|arrived| - 1]);
      var last := arrived[|arrived| - 1];
      HeardKeeps(before, last.text, last.party);
      if 0 < |last.text| <= 32 then Heard(before, last.text, last.party) else before
  }

  // ----- elapsed time ------------------------------------------------------

  function TickedTimes(w: World, n: nat): (r: World)
    requires WorldOk(w)
    ensures WorldOk(r)
  {
    if n == 0 then w
    else
      TickedKeeps(TickedTimes(w, n - 1));
      Ticked(TickedTimes(w, n - 1))
  }

  /** Elapsed time is capped at four ticks and added to what was left over. */
  function Budget(g: Game, elapsed: int): int {
    g.accumulator + (if elapsed < 4 * TICK_MS then elapsed else 4 * TICK_MS)
  }

  function WithTime(w: World, accumulator: int): World {
    w.(game := w.game.(accumulator := accumulator))
  }

  lemma WithTimeKeeps(w: World, accumulator: int)
    requires WorldOk(w)
    ensures WorldOk(WithTime(w, accumulator))
  {
    HistoryCarries(w.history, w.game, w.game.(accumulator := accumulator));
  }

  /** However much time has passed, it is played in whole ticks, at most four of
      them, and less than one tick is left over. */
  function Elapsed(w: World, elapsed: int): (r: World)
    requires WorldOk(w) && TimeOk(w.game) && elapsed > 0
    ensures WorldOk(r) && TimeOk(r.game)
    ensures r.game.sequence <= w.game.sequence + 4
    ensures (r.game.sequence - w.game.sequence) * TICK_MS + r.game.accumulator == Budget(w.game, elapsed)
  {
    var budget := Budget(w.game, elapsed);
    var n := budget / TICK_MS;
    EachTickPrintsOnce(w, n);
    WithTimeKeeps(TickedTimes(w, n), budget % TICK_MS);
    WithTime(TickedTimes(w, n), budget % TICK_MS)
  }

  lemma {:induction false} EachTickPrintsOnce(w: World, n: nat)
    requires WorldOk(w)
    ensures TickedTimes(w, n).game.sequence == w.game.sequence + n
    ensures TickedTimes(w, n).game.accumulator == w.game.accumulator
  {
    hide WorldOk, Photographed;
    if n > 0 {
      EachTickPrintsOnce(w, n - 1);
      TickedKeeps(TickedTimes(w, n - 1));
      TickCounts(TickedTimes(w, n - 1).game);
    }
  }

  lemma TickCounts(g: Game)
    ensures Tick(g).sequence == g.sequence + 1 && Tick(g).accumulator == g.accumulator
  {
  }

  /** The left-over time plays no part in a tick. */
  lemma TickIgnoresTime(w: World, accumulator: int)
    requires WorldOk(w) && WorldOk(WithTime(w, accumulator))
    ensures Ticked(WithTime(w, accumulator)) == WithTime(Ticked(w), accumulator)
  {
    var g := w.game;
    var g1 := g.(accumulator := accumulator);
    assert AgeBoth(g1) == AgeBoth(g).(accumulator := accumulator);
    assert Advanced(g1) == Advanced(g).(accumulator := accumulator);
  }

  // ----- whole runs --------------------------------------------------------

  function Step(w: World, i: Input): (r: World)
    requires WorldOk(w) && TimeOk(w.game)
    ensures WorldOk(r) && TimeOk(r.game) && r.game == Apply(w.game, i)
  {
    match i
    case Clock => TickedKeeps(w); Ticked(w)
    case Message(cmd, from) => HeardKeeps(w, cmd, from); Heard(w, cmd, from)
    case Halt => StoppedKeeps(w); Stopped(w)
  }

  lemma NewWorldOk()
    ensures WorldOk(NewWorld) && TimeOk(NewWorld.game)
  {
  }

  function Run(inputs: seq<Input>): (w: World)
    ensures WorldOk(w) && TimeOk(w.game)
  {
    NewWorldOk();
    if inputs == [] then NewWorld else Step(Run(inputs[..|inputs| - 1]), inputs[|inputs| - 1])
  }

  /** Scores and sequence numbers the two programs' integer types can hold. */
  predicate InTypes(g: Game) {
    g.leftScore < TWO31 && g.rightScore < TWO31 && g.sequence < TWO64
  }

  lemma PastIsDisplayable(w: World)
    requires WorldOk(w) && InTypes(w.game)
    ensures Numbered(w.history) && AllDisplayable(w.history)
  {
  }

  predicate SentBy(w: World, packets: seq<string>) {
    forall k :: 0 <= k < |packets| ==> exists m :: 0 <= m < |w.outbox| && packets[k] == w.outbox[m].text
  }

  /** Every snapshot of every run is accepted by the client and read back field for
      field; and whatever part of what the server sent reaches a client, in whatever
      order and however often, the client ends up showing the newest snapshot among it. */
  lemma EveryRunIsShown(inputs: seq<Input>, packets: seq<string>)
    requires InTypes(Run(inputs).game) && SentBy(Run(inputs), packets)
    ensures forall v :: v in Run(inputs).history ==> Natural(v) && Parse(Frame(v)) == Some(v)
    ensures Latest(Run(inputs).history, packets, ReceivedAll(NoView, packets))
  {
    hide Parse, Frame, Latest, ReceivedAll, Greeting, IsFrameOf, Run;
    var w := Run(inputs);
    PastIsDisplayable(w);
    forall v | v in w.history
      ensures Natural(v) && Parse(Frame(v)) == Some(v)
    {
      FrameReadBack(v);
    }
    assert FromServer(w.history, packets);
    ClientShowsLatest(w.history, packets);
  }
}
