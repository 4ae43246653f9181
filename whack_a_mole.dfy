/** The application object of the game: the 3x3 grid of holes, the mole's
    location and the timer, with the handlers of the Start and Stop buttons,
    the timer task and the mouse handler of the holes. Every handler is
    proved to change the state as Round.Step says. */
module Controller {
  import opened Holes
  import Round

  class WhackAMole {
    /** The grid of holes, row by row; it is created once and its entries
        never change. */
    const holePanes: array2<HolePane>
    /** The linear index of the hole the last tick chose, or Round.NoMole. */
    var locationIndex: int
    /** The timer most recently started is scheduled and not cancelled. */
    var running: bool
    /** A timer has been started, so the timer field is not null. */
    var timerSet: bool
    /** Timers replaced by a later Start without being cancelled: nothing
        refers to them, and they keep running the tick. */
    ghost var strays: nat

    /** The nine holes. */
    ghost function Panes(): set<HolePane>
      reads holePanes
    {
      set i, j | 0 <= i < holePanes.Length0 && 0 <= j < holePanes.Length1 :: holePanes[i, j]
    }

    /** The grid is 3x3 and no hole appears in it twice. */
    ghost predicate Shaped()
      reads holePanes
    {
      holePanes.Length0 == Round.Rows && holePanes.Length1 == Round.Cols &&
      forall i, j, i', j' ::
        (0 <= i < Round.Rows && 0 <= j < Round.Cols && 0 <= i' < Round.Rows && 0 <= j' < Round.Cols &&
         holePanes[i, j] == holePanes[i', j']) ==> i == i' && j == j'
    }

    /** The holes as values, by linear index. */
    ghost function Board(): seq<Cell>
      reads holePanes, Panes()
      requires Shaped()
    {
      seq(Round.Size, k requires 0 <= k < Round.Size reads holePanes, Panes() =>
        holePanes[Round.Row(k), Round.Col(k)].View())
    }

    /** The whole state of the round as a value. */
    ghost function State(): Round.Game
      reads this, holePanes, Panes()
      requires Shaped()
    {
      Round.Game(Board(), locationIndex, running, timerSet, strays)
    }

    ghost predicate Valid()
      reads this, holePanes, Panes()
    {
      Shaped() && Round.Inv(State())
    }

    /** Creates the nine holes row by row; no mole and no timer yet. */
    constructor ()
      ensures Valid() && State() == Round.Initial
      ensures fresh(Panes())
    {
      var made: seq<HolePane> := [];
      for i := 0 to Round.Rows
        invariant |made| == Round.Cols * i
        invariant forall a :: 0 <= a < |made| ==> fresh(made[a]) && made[a].View() == Fresh
        invariant forall a, b :: 0 <= a < b < |made| ==> made[a] != made[b]
      {
        for j := 0 to Round.Cols
          invariant |made| == Round.Cols * i + j
          invariant forall a :: 0 <= a < |made| ==> fresh(made[a]) && made[a].View() == Fresh
          invariant forall a, b :: 0 <= a < b < |made| ==> made[a] != made[b]
        {
          var pane := new HolePane();
          made := made + [pane];
        }
      }
      var panes := new HolePane[Round.Rows, Round.Cols]((i, j) requires 0 <= i < Round.Rows && 0 <= j < Round.Cols reads {} =>
        made[Round.Linear(i, j)]);
      holePanes := panes;
      locationIndex := Round.NoMole;
      running, timerSet := false, false;
      strays := 0;
      new;
      assert Board() == Round.Blank;
    }

    /** Blanks every hole: clears its text, then shows the empty image. */
    method ClearAllHoles()
      requires Shaped()
      modifies Panes()
      ensures Board() == Round.Blank
    {
      for i := 0 to Round.Rows
        invariant forall p, q :: 0 <= p < Round.Rows && 0 <= q < Round.Cols ==>
          holePanes[p, q].View() == if p < i then Fresh else old(holePanes[p, q].View())
      {
        for j := 0 to Round.Cols
          invariant forall p, q :: 0 <= p < Round.Rows && 0 <= q < Round.Cols ==>
            holePanes[p, q].View() == if p < i || (p == i && q < j) then Fresh else old(holePanes[p, q].View())
        {
          holePanes[i, j].ClearText();
          holePanes[i, j].Hide();
        }
      }
    }

    /** The Start button: blanks the holes and starts a new timer. The
        location is not reset, and a timer that is still running is not
        cancelled. */
    method Start()
      requires Valid()
      modifies this, Panes()
      ensures Valid()
      ensures State() == Round.Step(old(State()), Round.Start)
    {
      Round.StepKeepsInv(State(), Round.Start);
      ghost var next := Round.Step(State(), Round.Start);
      ClearAllHoles();
      strays := if running then strays + 1 else strays;
      running := true;
      timerSet := true;
      assert State() == next;
    }

    /** The Stop button: cancels the current timer. Before the first Start
        there is no timer and the handler fails without changing anything. */
    method Stop() returns (failed: bool)
      requires Valid()
      modifies this
      ensures Valid()
      ensures failed <==> !old(timerSet)
      ensures State() == Round.Step(old(State()), Round.Stop)
    {
      Round.StepKeepsInv(State(), Round.Stop);
      ghost var next := Round.Step(State(), Round.Stop);
      if !timerSet {
        failed := true;
      } else {
        failed := false;
        running := false;
      }
      assert State() == next;
    }

    /** The timer task: hides the hole at the old location, if there is one,
        then pops the mole out at the chosen hole r. */
    method Tick(r: int)
      requires Valid() && Round.Enabled(State(), Round.Tick(r))
      modifies this, Panes()
      ensures Valid()
      ensures State() == Round.Step(old(State()), Round.Tick(r))
    {
      Round.StepKeepsInv(State(), Round.Tick(r));
      ghost var next := Round.Step(State(), Round.Tick(r));
      if locationIndex != Round.NoMole {
        HideAt(locationIndex);
      }
      locationIndex := r;
      PopOutAt(locationIndex);
      assert State() == next;
    }

    /** The first half of the timer task: walks the grid row by row with a
        running index and hides the hole whose index is k. */
    method HideAt(k: int)
      requires Shaped() && 0 <= k < Round.Size
      modifies Panes()
      ensures Board() == old(Board())[k := old(Board())[k].(status := Empty)]
    {
      ghost var before := Board();
      ghost var after := before[k := before[k].(status := Empty)];
      assert forall p, q :: 0 <= p < Round.Rows && 0 <= q < Round.Cols ==>
        holePanes[p, q].View() == before[Round.Linear(p, q)];
      var index := 0;
      for i := 0 to Round.Rows
        invariant index == Round.Cols * i
        invariant forall p, q :: 0 <= p < Round.Rows && 0 <= q < Round.Cols ==>
          holePanes[p, q].View() == if Round.Linear(p, q) < index then after[Round.Linear(p, q)] else before[Round.Linear(p, q)]
      {
        for j := 0 to Round.Cols
          invariant index == Round.Cols * i + j
          invariant forall p, q :: 0 <= p < Round.Rows && 0 <= q < Round.Cols ==>
            holePanes[p, q].View() == if Round.Linear(p, q) < index then after[Round.Linear(p, q)] else before[Round.Linear(p, q)]
        {
          if index == k {
            holePanes[i, j].Hide();
          }
          index := index + 1;
        }
      }
      assert Board() == after;
    }

    /** The second half of the timer task: walks the grid row by row with a
        running index and pops the mole out at the hole whose index is k. */
    method PopOutAt(k: int)
      requires Shaped() && 0 <= k < Round.Size
      modifies Panes()
      ensures Board() == old(Board())[k := old(Board())[k].(status := Out)]
    {
      ghost var before := Board();
      ghost var after := before[k := before[k].(status := Out)];
      assert forall p, q :: 0 <= p < Round.Rows && 0 <= q < Round.Cols ==>
        holePanes[p, q].View() == before[Round.Linear(p, q)];
      var index := 0;
      for i := 0 to Round.Rows
        invariant index == Round.Cols * i
        invariant forall p, q :: 0 <= p < Round.Rows && 0 <= q < Round.Cols ==>
          holePanes[p, q].View() == if Round.Linear(p, q) < index then after[Round.Linear(p, q)] else before[Round.Linear(p, q)]
      {
        for j := 0 to Round.Cols
          invariant index == Round.Cols * i + j
          invariant forall p, q :: 0 <= p < Round.Rows && 0 <= q < Round.Cols ==>
            holePanes[p, q].View() == if Round.Linear(p, q) < index then after[Round.Linear(p, q)] else before[Round.Linear(p, q)]
        {
          if index == k {
            holePanes[i, j].PopOut();
          }
          index := index + 1;
        }
      }
      assert Board() == after;
    }

    /** The mouse handler of the hole at row i, column j: whacks it, and on a
        hit cancels the current timer. */
    method Press(i: int, j: int)
      requires Valid() && 0 <= i < Round.Rows && 0 <= j < Round.Cols
      modifies this, Panes()
      ensures Valid()
      ensures State() == Round.Step(old(State()), Round.Press(Round.Linear(i, j)))
    {
      ghost var k := Round.Linear(i, j);
      Round.StepKeepsInv(State(), Round.Press(k));
      ghost var before := Board();
      var hit := holePanes[i, j].Whack();
      if hit {
        running := false;
      }
      assert Board() == before[k := Whacked(before[k]).0];
    }
  }

  /** A round driven through the handlers: Start, a tick that places the
      mole at row i, column j, a press elsewhere that misses, and a press on
      the mole that hits and leaves no timer live. */
  method OneRound(i: int, j: int)
    requires 0 <= i < Round.Rows && 0 <= j < Round.Cols
  {
    var game := new WhackAMole();
    var k := Round.Linear(i, j);
    game.Start();
    Round.StartBlanksBoard(Round.Initial);
    game.Tick(k);
    Round.TickShowsOneMole(Round.Step(Round.Initial, Round.Start), k);
    assert game.State().board[k] == Cell(Out, "");
    var other := if k == 0 then 1 else 0;
    ghost var placed := game.State();
    game.Press(Round.Row(other), Round.Col(other));
    assert game.State() == placed;
    game.Press(i, j);
    assert game.State().board[k] == Cell(In, Ouch);
    assert !Round.Ticking(game.State());
  }
}
