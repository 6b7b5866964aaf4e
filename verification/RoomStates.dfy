/**
 The room state machine that every lifecycle handler consults.
 */
module RoomStates {
  import opened Text

  datatype RoomState = Waiting | Ready | Challenging | Connecting | Playing | Finished | Cancelled

  datatype RoomEvent = Accept | Start | Finish | Cancel | Decline

  datatype InvalidTransition = InvalidTransition(state: RoomState, event: RoomEvent)

  function Transition(state: RoomState, event: RoomEvent): Result<RoomState, InvalidTransition> {
    match (state, event)
    case (Waiting, Accept) => Success(Connecting)
    case (Challenging, Accept) => Success(Connecting)
    case (Connecting, Start) => Success(Playing)
    case (Playing, Finish) => Success(Finished)
    case (Waiting, Cancel) => Success(Cancelled)
    case (Ready, Cancel) => Success(Cancelled)
    case (Challenging, Cancel) => Success(Cancelled)
    case (Connecting, Cancel) => Success(Cancelled)
    case (Playing, Cancel) => Success(Cancelled)
    case (Waiting, Decline) => Success(Cancelled)
    case (Ready, Decline) => Success(Cancelled)
    case (Challenging, Decline) => Success(Cancelled)
    case (Connecting, Decline) => Success(Cancelled)
    case (Playing, Decline) => Success(Cancelled)
    case _ => Failure(InvalidTransition(state, event))
  }

  /** The room is neither finished nor cancelled. */
  predicate Live(state: RoomState) {
    state != Finished && state != Cancelled
  }

  /** Some event takes `before` to `after`. */
  ghost predicate Edge(before: RoomState, after: RoomState) {
    exists event :: Transition(before, event) == Success(after)
  }

  /** The edges written out: forward one stage, or from any live state to cancelled. */
  lemma EdgesAre(before: RoomState, after: RoomState)
    ensures Edge(before, after) <==>
              || (before in {Waiting, Challenging} && after == Connecting)
              || (before == Connecting && after == Playing)
              || (before == Playing && after == Finished)
              || (Live(before) && after == Cancelled)
  {
    if before in {Waiting, Challenging} && after == Connecting {
      assert Transition(before, Accept) == Success(after);
    } else if before == Connecting && after == Playing {
      assert Transition(before, Start) == Success(after);
    } else if before == Playing && after == Finished {
      assert Transition(before, Finish) == Success(after);
    } else if Live(before) && after == Cancelled {
      assert Transition(before, Cancel) == Success(after);
    }
  }
}
