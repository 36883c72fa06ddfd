/** The position a client keeps across reconnects, in both the Python and the web client. */
module Client {
  import opened RunningMax
  import R = Replay
  import V = ClientView

  class SyncClient {
    var lastKnownSequence: int

    constructor ()
      ensures lastKnownSequence == 0
    {
      lastKnownSequence := 0;
    }

    method OnEvent(sequence: int)
      modifies this
      ensures lastKnownSequence == Highest(old(lastKnownSequence), [sequence])
    {
      if sequence > lastKnownSequence {
        lastKnownSequence := sequence;
      }
      assert [sequence][..0] == [];
    }

    method OnReplay(sequences: seq<int>)
      modifies this
      ensures lastKnownSequence == Highest(old(lastKnownSequence), sequences)
    {
      var i := 0;
      while i < |sequences|
        invariant 0 <= i <= |sequences|
        invariant lastKnownSequence == Highest(old(lastKnownSequence), sequences[..i])
      {
        assert sequences[..i + 1][..i] == sequences[..i];
        if sequences[i] > lastKnownSequence {
          lastKnownSequence := sequences[i];
        }
        i := i + 1;
      }
      assert sequences[..i] == sequences;
    }
  }

  /** The client's loop over a frame's numbers moves the position as the protocol model does. */
  lemma LoopRaises(lastKnown: nat, f: R.Frame, numbers: seq<int>)
    requires forall q :: q in numbers <==> q >= 0 && q in V.NumbersOn(f)
    ensures Highest(lastKnown, numbers) == R.Raised(lastKnown, f)
  {
    HighestIsMaximum(lastKnown, numbers);
    match f
    case Batch(last, upTo) => if last < upTo { assert upTo in numbers; }
    case _ => assert f.number in numbers;
  }
}
