# Whack-a-Mole: a verified model of the game logic

The game shows a 3x3 grid of holes. A timer task ticks every 600 ms. On each
tick it hides the mole in the hole it last chose, if there is one. It then
picks a random hole from 0 to 8 and pops the mole out there. Pressing a hole
"whacks" it. A whack hits only while the mole is out of that hole: the hole
then shows the mole going back in with the text "Ouch!!", and the timer is
cancelled. The Start button blanks every hole and starts a new timer. The
Stop button cancels the timer.

The model has three modules:

- `Holes` (hole_pane.dfy): one hole. `Status` is the image it shows
  (`Empty`, `Out`, `In`) and `Cell` is its state as a value. The class
  `HolePane` has the fields `status` and `text`, and one method per operation
  of the Java class. `Whacked` is the guarded transition written on values.
- `Round` (round.dfy): the round controller as a state machine on values.
  `Game` holds the nine cells by linear index, the mole's location (`-1`
  before the first tick), and the timer state. `Step` applies one `Event`:
  Start, Stop, a tick with its random choice, or a press on a hole. `Run`
  applies a sequence of events. `Inv` is the controller's invariant: no hole
  other than the one at the location shows the mole. The lemmas prove that
  every event keeps it, and so at most one hole ever shows the mole.
- `Controller` (whack_a_mole.dfy): the class `WhackAMole` over an
  `array2<HolePane>`. The Start and Stop handlers, the timer task and the
  mouse handler are methods. Each one is proved to change the state exactly
  as `Round.Step` says, and to keep `Inv`. The timer task keeps the source's
  nested row/column loops with their running `index` counter.

The timer is modelled by three fields. `running` says the timer most recently
started is scheduled and not cancelled. `timerSet` says the `timer` field is
not null. The ghost counter `strays` counts timers that a later Start replaced
without cancelling them; they keep ticking. A tick may happen only while some
timer is live. Its random choice is a parameter in 0..8.

Notes on the code's behaviour, which the model keeps:

- `hide()` changes only the image and keeps the text.
- Start does not reset the location. The tick after a Start hides the hole
  that the old location names.
- Start does not cancel a timer that is still running. After Start, Start,
  Stop, the first timer still ticks (`Round.RestartLeaksTimer`).
- Stop before any Start dereferences a null timer. The model returns
  `failed` and changes nothing.

## Model

| member | source | states |
|---|---|---|
| Holes.HolePane.constructor | src/main/java/com/example/whackamole/HolePane.java:31-34 | a new hole shows the empty image with an empty text |
| Holes.HolePane.Hide | src/main/java/com/example/whackamole/HolePane.java:42-44 | the status becomes Empty and the text is unchanged |
| Holes.HolePane.PopOut | src/main/java/com/example/whackamole/HolePane.java:49-51 | the status becomes Out and the text is unchanged |
| Holes.HolePane.PopIn | src/main/java/com/example/whackamole/HolePane.java:56-58 | the status becomes In and the text is unchanged |
| Holes.HolePane.Whack | src/main/java/com/example/whackamole/HolePane.java:66-74 | returns true exactly when the mole was out; a hit leaves the mole In with text "Ouch!!"; a miss changes neither status nor text; the new state agrees with `Whacked` |
| Holes.HolePane.ClearText | src/main/java/com/example/whackamole/HolePane.java:79-81 | the text becomes empty and the status is unchanged |
| Holes.Whacked | src/main/java/com/example/whackamole/HolePane.java:66-74 | a hit exactly when the status is Out; a hit gives (In, "Ouch!!"); a miss returns the cell unchanged; the mole is never left out |
| Holes.WhackOnlyOnce | src/main/java/com/example/whackamole/HolePane.java:66-73 | a whack right after a successful one misses and leaves the hole as (In, "Ouch!!") |
| Holes.MissIsIdentity | src/main/java/com/example/whackamole/HolePane.java:71-73 | a whack on an Empty or In hole returns false and changes nothing |
| Round.Row | src/main/java/com/example/whackamole/WhackAMole.java:123-129 | the row of linear index k is in 0..2, and 3 * row + column gives k back |
| Round.Col | src/main/java/com/example/whackamole/WhackAMole.java:123-129 | the column of linear index k is in 0..2 |
| Round.Linear | src/main/java/com/example/whackamole/WhackAMole.java:122-130 | the counter value 3*i + j at row i, column j is in 0..8, and its row and column are i and j, so each index names exactly one hole |
| Round.TickBoard | src/main/java/com/example/whackamole/WhackAMole.java:119-146 | after a tick the chosen hole is Out; the old location, if different, is Empty; no other hole changes; no text changes |
| Round.Step | src/main/java/com/example/whackamole/WhackAMole.java:67-86 | every event keeps the state well formed; a tick leaves the chosen hole Out and records it as the location; other events keep the location; stray timers never disappear |
| Round.Run | src/main/java/com/example/whackamole/WhackAMole.java:67-86 | any feasible sequence of events keeps the state well formed and never reduces the stray timers |
| Round.InvHasAtMostOneOut | src/main/java/com/example/whackamole/WhackAMole.java:119-146 | under the invariant no two holes show the mole |
| Round.InitialInv | src/main/java/com/example/whackamole/WhackAMole.java:26-27 | the initial state (nine fresh holes, location -1, no timer) satisfies the invariant |
| Round.StepKeepsInv | src/main/java/com/example/whackamole/WhackAMole.java:67-86 | Start, Stop, a tick and a press each keep the invariant |
| Round.RunKeepsInv | src/main/java/com/example/whackamole/WhackAMole.java:67-86 | every feasible sequence of events keeps the invariant |
| Round.AtMostOneMole | src/main/java/com/example/whackamole/WhackAMole.java:119-146 | from program start, any interleaving of buttons, ticks and presses leaves at most one hole showing the mole |
| Round.TickShowsOneMole | src/main/java/com/example/whackamole/WhackAMole.java:119-146 | after a tick exactly the chosen hole shows the mole, also when it is the old location |
| Round.TickFromNoMole | src/main/java/com/example/whackamole/WhackAMole.java:121 | with location -1 a tick hides nothing and only pops the mole out at the chosen hole |
| Round.StartBlanksBoard | src/main/java/com/example/whackamole/WhackAMole.java:67-73 | Start leaves all nine holes Empty with empty text, does not reset the location, and sets the timer running |
| Round.StopCancels | src/main/java/com/example/whackamole/WhackAMole.java:76 | Stop only clears `running`; before any Start it changes nothing |
| Round.PressHit | src/main/java/com/example/whackamole/WhackAMole.java:81-86 | a press on the mole's hole finds a timer to cancel, sets that hole to (In, "Ouch!!"), stops the timer, and changes nothing else |
| Round.PressMiss | src/main/java/com/example/whackamole/WhackAMole.java:81-86 | a press on a hole that does not show the mole changes nothing |
| Round.StopSilences | src/main/java/com/example/whackamole/WhackAMole.java:76 | with no stray timer no timer is live after Stop, so no tick follows |
| Round.RestartLeaksTimer | src/main/java/com/example/whackamole/WhackAMole.java:67-76 | after Start, Start, Stop from program start a timer is still live |
| Round.HitScenario | src/main/java/com/example/whackamole/WhackAMole.java:67-86 | Start, tick at r, press r: hole r is (In, "Ouch!!"), every other hole is blank, and no timer is live if none was before |
| Round.MissScenario | src/main/java/com/example/whackamole/WhackAMole.java:67-86 | Start, tick at r, press j with j != r: the press changes nothing |
| Controller.WhackAMole.constructor | src/main/java/com/example/whackamole/WhackAMole.java:53-59 | creates nine distinct fresh holes row by row; the state is the initial one (no mole, location -1, no timer) and satisfies the invariant |
| Controller.WhackAMole.ClearAllHoles | src/main/java/com/example/whackamole/WhackAMole.java:101-108 | afterwards all nine holes are Empty with empty text; the location and timer are untouched |
| Controller.WhackAMole.Start | src/main/java/com/example/whackamole/WhackAMole.java:67-73 | the new state is `Step` of the old one under Start, and the invariant holds |
| Controller.WhackAMole.Stop | src/main/java/com/example/whackamole/WhackAMole.java:76 | fails exactly when no timer was ever started; the new state is `Step` under Stop, and the invariant holds |
| Controller.WhackAMole.Tick | src/main/java/com/example/whackamole/WhackAMole.java:119-147 | the new state is `Step` under a tick with choice r, and the invariant holds |
| Controller.WhackAMole.HideAt | src/main/java/com/example/whackamole/WhackAMole.java:121-131 | the nested loops hide exactly the hole with linear index k and change no other hole and no text |
| Controller.WhackAMole.PopOutAt | src/main/java/com/example/whackamole/WhackAMole.java:138-146 | the nested loops pop the mole out at exactly the hole with linear index k and change no other hole and no text |
| Controller.WhackAMole.Press | src/main/java/com/example/whackamole/WhackAMole.java:81-86 | the new state is `Step` under a press on hole 3*i + j, and the invariant holds |

## Left out

- The JavaFX scene, layout, buttons, `Scene` and `Stage` are user interface only.
- Loading the three images, and the `ImageView` and `Text` widgets, are left
  out. The shown image is the `status` field and the text is the `text` field.
  The Java code compares the image with `outImage` by reference; the model
  compares statuses.
- The `java.util.Timer` scheduling, its 600 ms period and its first run at
  time 0 are left out. The background thread that runs the tick beside the
  user-interface thread is also not modelled. Ticks are explicit calls, and
  handlers run one at a time.
- `java.util.Random` is left out. The tick takes its choice as an argument
  in 0..8.
- The `MolePopper` object is not modelled. Each Start creates one, but it
  has no state of its own.
- Controller.WhackAMole.Press: receives the row and column of the pressed
  hole rather than the `HolePane` object that `e.getSource()` returns.
- Controller.WhackAMole.Stop: the null-pointer exception of Stop before any
  Start is reported as `failed`. No exception propagates to the toolkit.
