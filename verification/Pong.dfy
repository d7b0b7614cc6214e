/** The Pong simulation as a value: a game, the datagrams players send, ticks of the
    clock, and the snapshot each of them prints. */
module Pong {
  import opened UdpEndpoints

  const WIDTH: int := 24
  const HEIGHT: int := 12
  const PADDLE: int := 3
  const TICK_MS: int := 100
  const IDLE_MS: int := 5000

  datatype Player = Player(active: bool, endpoint: Endpoint, direction: int, idle: int)

  const Nobody := Player(false, Unspecified, 0, 0)

  datatype Game = Game(
    left: Player, right: Player,
    leftY: int, rightY: int, ballX: int, ballY: int,
    leftScore: int, rightScore: int, sequence: nat,
    dx: int, dy: int, accumulator: int)

  const NewGame := Game(Nobody, Nobody, 4, 4, WIDTH / 2, HEIGHT / 2, 0, 0, 0, 1, 1, 0)

  /** What a snapshot shows; the same record is what a client keeps. */
  datatype View = View(sequence: nat, ly: int, ry: int, x: int, y: int, score1: int, score2: int, occupied: int)

  predicate BothActive(g: Game) {
    g.left.active && g.right.active
  }

  /** The next snapshot carries the next sequence number. */
  function Snapshot(g: Game): View {
    View(g.sequence + 1, g.leftY, g.rightY, g.ballX, g.ballY, g.leftScore, g.rightScore,
         (if g.left.active then 1 else 0) + (if g.right.active then 2 else 0))
  }

  function Printed(g: Game): Game {
    g.(sequence := g.sequence + 1)
  }

  function ResetBall(g: Game, direction: int): Game {
    g.(ballX := WIDTH / 2, ballY := HEIGHT / 2, dx := direction, dy := 1)
  }

  function Clamp(v: int, low: int, high: int): int {
    if v < low then low else if v > high then high else v
  }

  // ----- a tick ------------------------------------------------------------

  predicate Expires(p: Player) {
    p.active && p.idle + TICK_MS >= IDLE_MS
  }

  function Age(p: Player): Player {
    if Expires(p) then Nobody else p.(idle := if p.active then p.idle + TICK_MS else p.idle)
  }

  /** Idle players lose their seats, which puts the ball back in the middle. */
  function AgeBoth(g: Game): Game {
    var reset := Expires(g.left) || Expires(g.right);
    g.(left := Age(g.left), right := Age(g.right),
       ballX := if reset then WIDTH / 2 else g.ballX,
       ballY := if reset then HEIGHT / 2 else g.ballY,
       dx := if reset then 1 else g.dx,
       dy := if reset then 1 else g.dy)
  }

  function NextLeft(g: Game): int {
    Clamp(g.leftY + g.left.direction, 0, HEIGHT - PADDLE)
  }

  function NextRight(g: Game): int {
    Clamp(g.rightY + g.right.direction, 0, HEIGHT - PADDLE)
  }

  predicate Bounces(g: Game) {
    !(0 <= g.ballY + g.dy < HEIGHT)
  }

  function NextY(g: Game): int {
    if Bounces(g) then g.ballY - g.dy else g.ballY + g.dy
  }

  predicate HitsLeft(g: Game) {
    g.ballX + g.dx == 2 && g.dx < 0 && NextLeft(g) <= NextY(g) < NextLeft(g) + PADDLE
  }

  predicate HitsRight(g: Game) {
    g.ballX + g.dx == WIDTH - 3 && g.dx > 0 && NextRight(g) <= NextY(g) < NextRight(g) + PADDLE
  }

  function NextX(g: Game): int {
    if HitsLeft(g) then g.ballX + 1 else if HitsRight(g) then g.ballX - 1 else g.ballX + g.dx
  }

  predicate ScoresRight(g: Game) {
    NextX(g) <= 0
  }

  predicate ScoresLeft(g: Game) {
    NextX(g) > 0 && NextX(g) >= WIDTH - 1
  }

  /** One move of paddles and ball. */
  function Move(g: Game): Game {
    var scored := ScoresLeft(g) || ScoresRight(g);
    g.(leftY := NextLeft(g), rightY := NextRight(g),
       ballX := if scored then WIDTH / 2 else NextX(g),
       ballY := if scored then HEIGHT / 2 else NextY(g),
       dx := if ScoresRight(g) then 1 else if ScoresLeft(g) then -1
             else if HitsLeft(g) then 1 else if HitsRight(g) then -1 else g.dx,
       dy := if scored then 1 else if Bounces(g) then -g.dy else g.dy,
       leftScore := g.leftScore + (if ScoresLeft(g) then 1 else 0),
       rightScore := g.rightScore + (if ScoresRight(g) then 1 else 0))
  }

  /** A tick before its snapshot: the ball moves only while both seats are taken. */
  function Advanced(g: Game): Game {
    if BothActive(AgeBoth(g)) then Move(AgeBoth(g)) else AgeBoth(g)
  }

  function Tick(g: Game): Game {
    Printed(Advanced(g))
  }

  // ----- datagrams ---------------------------------------------------------

  predicate SameEndpoint(a: Endpoint, b: Endpoint) {
    !a.Unspecified? && a == b
  }

  /** 0 left, 1 right, -1 not seated. */
  function Seat(g: Game, from: Endpoint): int {
    if g.left.active && SameEndpoint(g.left.endpoint, from) then 0
    else if g.right.active && SameEndpoint(g.right.endpoint, from) then 1
    else -1
  }

  function SeatForJoin(g: Game, from: Endpoint): int {
    if Seat(g, from) >= 0 then Seat(g, from)
    else if !g.left.active then 0
    else if !g.right.active then 1
    else -1
  }

  /** J: take or keep a seat; a full table changes nothing. */
  function Join(g: Game, from: Endpoint): Game {
    var who := SeatForJoin(g, from);
    g.(left := if who != 0 then g.left
               else if Seat(g, from) == 0 then g.left.(idle := 0) else Player(true, from, 0, 0),
       right := if who != 1 then g.right
                else if Seat(g, from) == 1 then g.right.(idle := 0) else Player(true, from, 0, 0))
  }

  function Leave(g: Game, who: int): Game {
    ResetBall(g.(left := if who == 0 then Nobody else g.left, right := if who == 1 then Nobody else g.right), 1)
  }

  predicate Steers(cmd: string) {
    cmd == "H" || cmd == "U" || cmd == "D" || cmd == "N"
  }

  function Steered(p: Player, cmd: string): Player {
    p.(idle := 0,
       direction := if cmd == "U" then -1 else if cmd == "D" then 1 else if cmd == "N" then 0 else p.direction)
  }

  predicate Prints(g: Game, cmd: string, from: Endpoint) {
    if cmd == "J" then SeatForJoin(g, from) >= 0 else cmd == "Q" && Seat(g, from) >= 0
  }

  /** The game after a datagram, before the snapshot it may print. */
  function Handled(g: Game, cmd: string, from: Endpoint): Game {
    var who := Seat(g, from);
    if cmd == "J" then Join(g, from)
    else if who < 0 then g
    else if cmd == "Q" then Leave(g, who)
    else g.(left := if who == 0 && Steers(cmd) then Steered(g.left, cmd) else g.left,
            right := if who == 1 && Steers(cmd) then Steered(g.right, cmd) else g.right)
  }

  function Datagram(g: Game, cmd: string, from: Endpoint): Game {
    if Prints(g, cmd, from) then Printed(Handled(g, cmd, from)) else Handled(g, cmd, from)
  }

  // ----- the invariant -----------------------------------------------------

  predicate PlayerOk(p: Player) {
    -1 <= p.direction <= 1 && 0 <= p.idle && (p.active ==> p.idle < IDLE_MS)
  }

  /** Ball and paddles are on the board, and a ball flying away from a side has
      already left that side's paddle. */
  predicate BoardOk(g: Game) {
    && 0 <= g.leftY <= HEIGHT - PADDLE && 0 <= g.rightY <= HEIGHT - PADDLE
    && 0 <= g.ballY < HEIGHT
    && (g.dx == 1 || g.dx == -1) && (g.dy == 1 || g.dy == -1)
    && (if g.dx == 1 then 4 <= g.ballX <= WIDTH - 2 else 1 <= g.ballX <= WIDTH - 5)
    && 0 <= g.leftScore && 0 <= g.rightScore
  }

  predicate GameOk(g: Game) {
    PlayerOk(g.left) && PlayerOk(g.right) && BoardOk(g)
  }

  lemma AgeKeeps(g: Game)
    requires GameOk(g)
    ensures GameOk(AgeBoth(g))
  {
  }

  lemma MoveKeeps(g: Game)
    requires GameOk(g) && BothActive(g)
    ensures GameOk(Move(g))
  {
  }

  lemma TickKeeps(g: Game)
    requires GameOk(g)
    ensures GameOk(Tick(g)) && GameOk(Advanced(g))
  {
    hide AgeBoth, Move;
    AgeKeeps(g);
    if BothActive(AgeBoth(g)) {
      MoveKeeps(AgeBoth(g));
    }
  }

  lemma DatagramKeeps(g: Game, cmd: string, from: Endpoint)
    requires GameOk(g)
    ensures GameOk(Datagram(g, cmd, from)) && GameOk(Handled(g, cmd, from))
  {
    if cmd == "J" {
      JoinKeeps(g, from);
    } else if Seat(g, from) >= 0 && cmd == "Q" {
      LeaveKeeps(g, Seat(g, from));
    }
  }

  lemma JoinKeeps(g: Game, from: Endpoint)
    requires GameOk(g)
    ensures GameOk(Join(g, from))
  {
  }

  lemma LeaveKeeps(g: Game, who: int)
    requires GameOk(g)
    ensures GameOk(Leave(g, who))
  {
  }

  // ----- play goes on ------------------------------------------------------

  /** A paddle hit or a score happens in this tick. */
  predicate Eventful(g: Game) {
    var a := AgeBoth(g);
    BothActive(a) && (HitsLeft(a) || HitsRight(a) || ScoresLeft(a) || ScoresRight(a))
  }

  /** Columns left before the ball reaches the goal it is flying to. */
  function Rank(g: Game): int {
    if g.dx == 1 then WIDTH - 1 - g.ballX else g.ballX
  }

  lemma RankBounded(g: Game)
    requires GameOk(g)
    ensures 1 <= Rank(g) <= 19
  {
  }

  /** Stopping empties both seats and forgets the time that has not been played. */
  function Halted(g: Game): Game {
    g.(left := Nobody, right := Nobody, accumulator := 0)
  }

  datatype Input = Clock | Message(cmd: string, from: Endpoint) | Halt

  function Apply(g: Game, i: Input): Game {
    match i
    case Clock => Tick(g)
    case Message(cmd, from) => Datagram(g, cmd, from)
    case Halt => Halted(g)
  }

  function Ticks(inputs: seq<Input>): nat {
    if inputs == [] then 0 else (if inputs[0].Clock? then 1 else 0) + Ticks(inputs[1..])
  }

  /** Both seats stay taken throughout, and no tick brings a hit or a score. */
  predicate Uneventful(g: Game, inputs: seq<Input>)
    decreases |inputs|
  {
    BothActive(g) &&
    (inputs != [] ==> !(inputs[0].Clock? && Eventful(g)) && Uneventful(Apply(g, inputs[0]), inputs[1..]))
  }

  lemma QuietTickApproaches(g: Game)
    requires GameOk(g) && !Eventful(g) && BothActive(g) && BothActive(Tick(g))
    ensures Rank(Tick(g)) == Rank(g) - 1
  {
    var a := AgeBoth(g);
    assert !Expires(g.left) && !Expires(g.right);
    assert Advanced(g) == Move(a);
  }

  lemma SeatedMessageKeepsRank(g: Game, cmd: string, from: Endpoint)
    requires GameOk(g) && BothActive(g) && BothActive(Datagram(g, cmd, from))
    ensures Rank(Datagram(g, cmd, from)) == Rank(g)
  {
  }

  /** While both seats stay taken, however players steer, fewer than 19 ticks pass
      without a paddle hit or a score. */
  lemma {:induction false} PlayGoesOn(g: Game, inputs: seq<Input>)
    requires GameOk(g) && Uneventful(g, inputs)
    ensures Ticks(inputs) < Rank(g) <= 19
    decreases |inputs|
  {
    hide Tick, Datagram, Eventful, GameOk;
    RankBounded(g);
    if inputs != [] {
      var g1 := Apply(g, inputs[0]);
      match inputs[0] {
        case Clock =>
          TickKeeps(g);
          QuietTickApproaches(g);
        case Message(cmd, from) =>
          DatagramKeeps(g, cmd, from);
          SeatedMessageKeepsRank(g, cmd, from);
        case Halt =>
          assert false;
      }
      PlayGoesOn(g1, inputs[1..]);
    }
  }
}
