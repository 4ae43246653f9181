/** One hole of the 3x3 game board: which of its three images it shows and
    the feedback text drawn over the image. */
module Holes {

  /** The image a hole shows: the empty hole, the mole popped out, or the
      mole going back in after a whack. */
  datatype Status = Empty | Out | In

  /** The text shown when a mole is whacked. */
  const Ouch: string := "Ouch!!"

  /** The observable state of one hole, as a value. */
  datatype Cell = Cell(status: Status, text: string)

  /** A hole as it is created: the empty image and no text. */
  const Fresh: Cell := Cell(Empty, "")

  /** The guarded transition of a hole: a whack hits only when the mole is
      out; a hit puts the mole in and shows the feedback text, a miss
      changes nothing. Returns the new cell and whether it was a hit. */
  function Whacked(c: Cell): (r: (Cell, bool))
    ensures r.1 <==> c.status == Out
    ensures r.1 ==> r.0 == Cell(In, Ouch)
    ensures !r.1 ==> r.0 == c
    ensures r.0.status != Out
  {
    if c.status == Out then (Cell(In, Ouch), true) else (c, false)
  }

  /** A successful whack cannot be repeated: the second of two whacks in a
      row misses, and leaves the hole as the first one left it. */
  lemma WhackOnlyOnce(c: Cell)
    requires Whacked(c).1
    ensures !Whacked(Whacked(c).0).1
    ensures Whacked(Whacked(c).0).0 == Cell(In, Ouch)
  {
  }

  /** A whack that misses is the identity: nothing about the hole changes. */
  lemma MissIsIdentity(c: Cell)
    requires c.status != Out
    ensures Whacked(c) == (c, false)
  {
  }

  class HolePane {
    var status: Status
    var text: string

    /** The hole's state as a value. */
    function View(): Cell
      reads this
    {
      Cell(status, text)
    }

    /** A new hole shows the empty image and an empty text. */
    constructor ()
      ensures View() == Fresh
    {
      status := Empty;
      text := "";
    }

    /** Shows the empty image; the text is left as it is. */
    method Hide()
      modifies this
      ensures status == Empty && text == old(text)
    {
      status := Empty;
    }

    /** Shows the mole popped out; the text is left as it is. */
    method PopOut()
      modifies this
      ensures status == Out && text == old(text)
    {
      status := Out;
    }

    /** Shows the mole going back in; the text is left as it is. */
    method PopIn()
      modifies this
      ensures status == In && text == old(text)
    {
      status := In;
    }

    /** Whacks the hole: a hit exactly when the mole is out, in which case the
        text becomes Ouch and the mole goes in; a miss changes nothing. */
    method Whack() returns (hit: bool)
      modifies this
      ensures hit <==> old(status) == Out
      ensures hit ==> status == In && text == Ouch
      ensures !hit ==> status == old(status) && text == old(text)
      ensures (View(), hit) == Whacked(old(View()))
    {
      if status == Out {
        text := Ouch;
        PopIn();
        hit := true;
      } else {
        hit := false;
      }
    }

    /** Clears the text; the image is left as it is. */
    method ClearText()
      modifies this
      ensures text == "" && status == old(status)
    {
      text := "";
    }
  }
}
