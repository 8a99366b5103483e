/** The body of an uploaded batch: every item followed by a newline. */
module Framing {
  import opened Text

  newtype byte = x: int | 0 <= x < 256
  type Data = seq<byte>

  const NEWLINE: byte := 10

  function Frame(batch: seq<Data>): Data {
    if batch == [] then [] else Frame(batch[..|batch| - 1]) + batch[|batch| - 1] + [NEWLINE]
  }

  /** The lines of a text that ends in a newline. */
  function Lines(body: Data): seq<Data> {
    var parts := Split(body, NEWLINE);
    parts[..|parts| - 1]
  }

  function TotalLength(batch: seq<Data>): nat {
    if batch == [] then 0 else TotalLength(batch[..|batch| - 1]) + |batch[|batch| - 1]|
  }

  lemma {:induction false} FrameAppend(a: seq<Data>, b: seq<Data>)
    ensures Frame(a + b) == Frame(a) + Frame(b)
  {
    if b == [] {
      assert a + b == a;
    } else {
      var b' := b[..|b| - 1];
      FrameAppend(a, b');
      assert (a + b)[..|a + b| - 1] == a + b';
    }
  }

  /** The size the client reports for an upload is the sum of the item lengths plus one
      newline an item, and that is the length of the framed batch. */
  lemma {:induction false} FrameSize(batch: seq<Data>)
    ensures |Frame(batch)| == TotalLength(batch) + |batch|
  {
    if batch == [] {
    } else {
      FrameSize(batch[..|batch| - 1]);
    }
  }

  lemma {:induction false} SplitFrame(batch: seq<Data>)
    requires forall i | 0 <= i < |batch| :: NEWLINE !in batch[i]
    ensures Split(Frame(batch), NEWLINE) == batch + [[]]
  {
    if batch == [] {
    } else {
      SplitFrame(batch[1..]);
      FrameAppend(batch[..1], batch[1..]);
      assert batch[..1] + batch[1..] == batch;
      assert batch[..1][..0] == [];
      assert Frame(batch[..1]) == batch[0] + [NEWLINE];
      SplitAppend(batch[0], NEWLINE, Frame(batch[1..]));
      SplitWhole(batch[0], NEWLINE);
    }
  }

  /** Reading the lines of an uploaded body gives the batch back exactly when no item
      contains a newline. */
  lemma LinesRecoverBatch(batch: seq<Data>)
    ensures Lines(Frame(batch)) == batch <==> forall i | 0 <= i < |batch| :: NEWLINE !in batch[i]
  {
    if forall i | 0 <= i < |batch| :: NEWLINE !in batch[i] {
      SplitFrame(batch);
      assert (batch + [[]])[..|batch|] == batch;
    }
  }
}
