/** The round controller of the game as a value-level state machine: the nine
    holes, the mole's location, and the timer that drives the ticks. The
    class Controller.WhackAMole is proved to follow Step event by event. */
module Round {
  import opened Holes

  const Rows: int := 3
  const Cols: int := 3
  const Size: int := 9
  /** The location before the first tick: no mole has been placed yet. */
  const NoMole: int := -1

  /** The row of the hole with linear index k. */
  function Row(k: int): (i: int)
    requires 0 <= k < Size
    ensures 0 <= i < Rows
    ensures Cols * i + Col(k) == k
  {
    k / Cols
  }

  /** The column of the hole with linear index k. */
  function Col(k: int): (j: int)
    requires 0 <= k < Size
    ensures 0 <= j < Cols
  {
    k % Cols
  }

  /** The value of the running index counter when the nested row/column
      loops reach row i, column j; it is the inverse of (Row, Col). */
  function Linear(i: int, j: int): (k: int)
    requires 0 <= i < Rows && 0 <= j < Cols
    ensures 0 <= k < Size
    ensures Row(k) == i && Col(k) == j
  {
    Cols * i + j
  }

  /** The whole observable state of a round.
      board: the nine holes, by linear index;
      location: the hole the last tick chose, or NoMole;
      running: the timer most recently started is scheduled and not cancelled;
      timerSet: some timer has been started, so the timer field is not null;
      strays: timers started earlier that were replaced without being
      cancelled; nothing refers to them any more, and they keep ticking. */
  datatype Game = Game(board: seq<Cell>, location: int, running: bool,
                       timerSet: bool, strays: nat)

  /** The inputs of the controller: the Start and Stop buttons, a timer tick
      that chose the next location, and a mouse press on a hole. */
  datatype Event = Start | Stop | Tick(choice: int) | Press(hole: int)

  /** Nine empty holes without text. */
  const Blank: seq<Cell> := [Fresh, Fresh, Fresh, Fresh, Fresh, Fresh, Fresh, Fresh, Fresh]

  /** The state when the application starts: no timer, no mole. */
  const Initial: Game := Game(Blank, NoMole, false, false, 0)

  predicate WellFormed(g: Game) {
    |g.board| == Size && NoMole <= g.location < Size
  }

  /** Some timer is live, so a tick can fire. */
  predicate Ticking(g: Game) {
    g.running || g.strays > 0
  }

  /** When an event can happen: a tick only while a timer is live and with a
      choice in 0..8, a press only on one of the nine holes. */
  predicate Enabled(g: Game, e: Event) {
    match e
    case Tick(r) => Ticking(g) && 0 <= r < Size
    case Press(k) => 0 <= k < Size
    case _ => true
  }

  /** The board after one tick: the hole at the old location, if there is
      one, is hidden, and then the mole pops out at r. Only the statuses of
      those two holes change, and no text changes. */
  function TickBoard(b: seq<Cell>, loc: int, r: int): (nb: seq<Cell>)
    requires |b| == Size && NoMole <= loc < Size && 0 <= r < Size
    ensures |nb| == Size
    ensures nb[r] == Cell(Out, b[r].text)
    ensures loc != NoMole && loc != r ==> nb[loc] == Cell(Empty, b[loc].text)
    ensures forall k :: 0 <= k < Size ==> nb[k].text == b[k].text
    ensures forall k :: 0 <= k < Size && k != loc && k != r ==> nb[k] == b[k]
  {
    var hidden := if loc == NoMole then b else b[loc := b[loc].(status := Empty)];
    hidden[r := hidden[r].(status := Out)]
  }

  /** One event.
      Start blanks every hole and starts a new timer; the location is kept,
      and a timer that was still running becomes a stray.
      Stop cancels the current timer; with no timer yet it fails and
      changes nothing.
      Tick moves the mole to the chosen hole.
      Press whacks the hole; a hit cancels the current timer. */
  function Step(g: Game, e: Event): (n: Game)
    requires WellFormed(g) && Enabled(g, e)
    ensures WellFormed(n)
    ensures e.Tick? ==> n.location == e.choice && n.board[n.location].status == Out
    ensures !e.Tick? ==> n.location == g.location
    ensures n.strays >= g.strays
  {
    match e
    case Start =>
      Game(Blank, g.location, true, true, if g.running then g.strays + 1 else g.strays)
    case Stop =>
      if g.timerSet then g.(running := false) else g
    case Tick(r) =>
      g.(board := TickBoard(g.board, g.location, r), location := r)
    case Press(k) =>
      var w := Whacked(g.board[k]);
      g.(board := g.board[k := w.0], running := if w.1 && g.timerSet then false else g.running)
  }

  /** Every event of es can happen in turn, starting from g. */
  predicate Feasible(g: Game, es: seq<Event>)
    requires WellFormed(g)
    decreases |es|
  {
    es == [] || (Enabled(g, es[0]) && Feasible(Step(g, es[0]), es[1..]))
  }

  /** The state after the events es, one after another. */
  function Run(g: Game, es: seq<Event>): (n: Game)
    requires WellFormed(g) && Feasible(g, es)
    ensures WellFormed(n)
    ensures n.strays >= g.strays
    decreases |es|
  {
    if es == [] then g else Run(Step(g, es[0]), es[1..])
  }

  /** No two holes show the mole. */
  predicate AtMostOneOut(b: seq<Cell>) {
    forall k, k' :: 0 <= k < |b| && 0 <= k' < |b| && b[k].status == Out && b[k'].status == Out ==> k == k'
  }

  /** The invariant of the controller: no hole other than the one at the
      location shows the mole, and a live timer or a placed mole means that
      the timer field has been set. */
  predicate Inv(g: Game) {
    WellFormed(g) &&
    (forall k :: 0 <= k < Size && k != g.location ==> g.board[k].status != Out) &&
    (g.running || g.strays > 0 || g.location != NoMole ==> g.timerSet)
  }

  lemma InvHasAtMostOneOut(g: Game)
    requires Inv(g)
    ensures AtMostOneOut(g.board)
  {
  }

  lemma InitialInv()
    ensures Inv(Initial)
    ensures forall k :: 0 <= k < Size ==> Initial.board[k] == Fresh
  {
  }

  /** Each event keeps the invariant. */
  lemma StepKeepsInv(g: Game, e: Event)
    requires Inv(g) && Enabled(g, e)
    ensures Inv(Step(g, e))
  {
  }

  /** Every feasible sequence of events keeps the invariant. */
  lemma {:induction false} RunKeepsInv(g: Game, es: seq<Event>)
    requires Inv(g) && Feasible(g, es)
    ensures Inv(Run(g, es))
    decreases |es|
  {
    if es != [] {
      StepKeepsInv(g, es[0]);
      RunKeepsInv(Step(g, es[0]), es[1..]);
    }
  }

  /** However the buttons, the ticks and the presses interleave, at most one
      hole shows the mole. */
  lemma AtMostOneMole(es: seq<Event>)
    requires Feasible(Initial, es)
    ensures AtMostOneOut(Run(Initial, es).board)
  {
    InitialInv();
    RunKeepsInv(Initial, es);
    InvHasAtMostOneOut(Run(Initial, es));
  }

  /** After a tick exactly one hole shows the mole: the chosen one, even when
      it is the hole the mole was already in. */
  lemma TickShowsOneMole(g: Game, r: int)
    requires Inv(g) && Enabled(g, Tick(r))
    ensures forall k :: 0 <= k < Size ==> (Step(g, Tick(r)).board[k].status == Out <==> k == r)
  {
  }

  /** With no mole placed yet, a tick hides nothing: it only pops the mole
      out at the chosen hole. */
  lemma TickFromNoMole(g: Game, r: int)
    requires WellFormed(g) && g.location == NoMole && Enabled(g, Tick(r))
    ensures Step(g, Tick(r)).board == g.board[r := Cell(Out, g.board[r].text)]
  {
  }

  /** Start blanks all nine holes and starts a timer; the location is not
      reset. */
  lemma StartBlanksBoard(g: Game)
    requires WellFormed(g)
    ensures forall k :: 0 <= k < Size ==> Step(g, Start).board[k] == Fresh
    ensures Step(g, Start).location == g.location
    ensures Step(g, Start).running && Step(g, Start).timerSet
  {
  }

  /** Stop cancels the current timer and changes nothing else; before any
      Start it changes nothing at all. */
  lemma StopCancels(g: Game)
    requires WellFormed(g)
    ensures g.timerSet ==> Step(g, Stop) == g.(running := false)
    ensures !g.timerSet ==> Step(g, Stop) == g
  {
  }

  /** Pressing the hole that shows the mole is a hit: the hole shows the mole
      going in with the Ouch text, the timer is cancelled (it exists, so the
      cancellation cannot fail), and nothing else changes. */
  lemma PressHit(g: Game, k: int)
    requires Inv(g) && 0 <= k < Size && g.board[k].status == Out
    ensures g.timerSet
    ensures Step(g, Press(k)) == g.(board := g.board[k := Cell(In, Ouch)], running := false)
  {
  }

  /** Pressing a hole that does not show the mole changes nothing. */
  lemma PressMiss(g: Game, k: int)
    requires WellFormed(g) && 0 <= k < Size && g.board[k].status != Out
    ensures Step(g, Press(k)) == g
  {
  }

  /** With no stray timer, Stop leaves no timer live, so no tick follows. */
  lemma StopSilences(g: Game)
    requires Inv(g) && g.strays == 0
    ensures !Ticking(Step(g, Stop))
  {
  }

  /** Starting twice without stopping leaves the first timer running after
      Stop: ticks keep coming. */
  lemma RestartLeaksTimer()
    ensures Feasible(Initial, [Start, Start, Stop])
    ensures Ticking(Run(Initial, [Start, Start, Stop]))
  {
  }

  /** Start, a tick at r, then a press on r: the hole shows the mole going
      in with the Ouch text, every other hole is blank, and when no timer was
      live before Start, no timer is live afterwards. */
  lemma HitScenario(g: Game, r: int)
    requires Inv(g) && 0 <= r < Size
    ensures Feasible(g, [Start, Tick(r), Press(r)])
    ensures Run(g, [Start, Tick(r), Press(r)]).board == Blank[r := Cell(In, Ouch)]
    ensures !Ticking(g) ==> !Ticking(Run(g, [Start, Tick(r), Press(r)]))
  {
    var g1 := Step(g, Start);
    var g2 := Step(g1, Tick(r));
    var g3 := Step(g2, Press(r));
    assert g2.board == Blank[r := Cell(Out, "")];
    assert g3.board == Blank[r := Cell(In, Ouch)];
    assert [Start, Tick(r), Press(r)][1..] == [Tick(r), Press(r)];
    assert [Tick(r), Press(r)][1..] == [Press(r)];
    assert [Press(r)][1..] == [];
    assert Feasible(g3, []) && Run(g3, []) == g3;
    assert Feasible(g2, [Press(r)]) && Run(g2, [Press(r)]) == g3;
    assert Feasible(g1, [Tick(r), Press(r)]) && Run(g1, [Tick(r), Press(r)]) == g3;
  }

  /** Start, a tick at r, then a press on another hole: the press changes
      nothing. */
  lemma MissScenario(g: Game, r: int, j: int)
    requires Inv(g) && 0 <= r < Size && 0 <= j < Size && j != r
    ensures Feasible(g, [Start, Tick(r), Press(j)])
    ensures Run(g, [Start, Tick(r), Press(j)]) == Run(g, [Start, Tick(r)])
  {
    var g1 := Step(g, Start);
    var g2 := Step(g1, Tick(r));
    assert g2.board[j] == Fresh;
    assert Step(g2, Press(j)) == g2;
    assert [Start, Tick(r), Press(j)][1..] == [Tick(r), Press(j)];
    assert [Tick(r), Press(j)][1..] == [Press(j)];
    assert [Press(j)][1..] == [];
    assert [Start, Tick(r)][1..] == [Tick(r)];
    assert [Tick(r)][1..] == [];
    assert Feasible(g2, []) && Run(g2, []) == g2;
    assert Feasible(g2, [Press(j)]) && Run(g2, [Press(j)]) == g2;
    assert Feasible(g1, [Tick(r)]) && Run(g1, [Tick(r)]) == g2;
    assert Feasible(g1, [Tick(r), Press(j)]) && Run(g1, [Tick(r), Press(j)]) == g2;
  }
}
