/** `queue.Queue(maxsize=1)`: the one-frame slot between a frame source and the streaming session. */
module FrameQueue {
  import opened Common

  /** A decoded video frame; only its identity and its size matter to the model. */
  datatype Frame = Frame(seqNo: nat, width: nat, height: nat)

  const MaxSize: nat := 1

  class FrameSlot {
    var items: seq<Frame>

    predicate Valid()
      reads this
    {
      |items| <= MaxSize
    }

    constructor ()
      ensures Valid() && items == []
    {
      items := [];
    }

    /** `qsize()` */
    function QSize(): nat
      reads this
    {
      |items|
    }

    /** `empty()` */
    predicate IsEmpty()
      reads this
    {
      items == []
    }

    /** `get_nowait()`: the oldest frame, or `queue.Empty` (None) on an empty slot. */
    method GetNowait() returns (f: Option<Frame>)
      requires Valid()
      modifies this
      ensures Valid()
      ensures old(items) == [] ==> f == None && items == []
      ensures old(items) != [] ==> f == Some(old(items)[0]) && items == old(items)[1..]
    {
      if items == [] {
        f := None;
      } else {
        f := Some(items[0]);
        items := items[1..];
      }
    }

    /** `put_nowait(frame)`: false stands for `queue.Full`. */
    method PutNowait(frame: Frame) returns (ok: bool)
      requires Valid()
      modifies this
      ensures Valid()
      ensures ok <==> |old(items)| < MaxSize
      ensures items == if ok then old(items) + [frame] else old(items)
    {
      ok := |items| < MaxSize;
      if ok {
        items := items + [frame];
      }
    }
  }
}
