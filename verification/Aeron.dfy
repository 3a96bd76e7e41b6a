/** What the service container assumes of the Aeron library: result codes of a
    publication, frames of a log buffer, and the image a subscriber reads. */
module Aeron {

  datatype Option<+T> = None | Some(value: T)

  const NULL_VALUE := -1
  const NULL_POSITION := -1

  // Results of `offer` and `tryClaim`: a positive stream position, or one of these.
  const NOT_CONNECTED := -1
  const BACK_PRESSURED := -2
  const ADMIN_ACTION := -3
  const PUBLICATION_CLOSED := -4
  const MAX_POSITION_EXCEEDED := -5

  /** The results `checkResult` turns into an exception; every other non-positive one is retried. */
  predicate IsFatal(result: int) {
    result == NOT_CONNECTED || result == PUBLICATION_CLOSED || result == MAX_POSITION_EXCEEDED
  }

  type Byte = b: int | 0 <= b < 256
  type Bytes = seq<Byte>

  const HEADER_LENGTH := 32
  const FRAME_ALIGNMENT := 32

  /** `BitUtil::align` to the frame alignment: the least multiple not below `x`. */
  function Align(x: nat): (r: nat)
    ensures r % FRAME_ALIGNMENT == 0
    ensures x <= r < x + FRAME_ALIGNMENT
  {
    (x + FRAME_ALIGNMENT - 1) / FRAME_ALIGNMENT * FRAME_ALIGNMENT
  }

  const BEGIN_FRAG: bv8 := 0x80
  const END_FRAG: bv8 := 0x40
  const UNFRAGMENTED: bv8 := 0xC0

  /** One frame as a fragment handler sees it: the header's flags, the payload's term offset,
      the payload, and the stream position at the end of the frame (`header.position()`). */
  datatype Frame = Frame(flags: bv8, offset: nat, payload: Bytes, position: int)
  {
    predicate IsWhole() { flags & UNFRAGMENTED == UNFRAGMENTED }

    predicate Begins() { flags & BEGIN_FRAG == BEGIN_FRAG }

    predicate Ends() { flags & END_FRAG == END_FRAG }

    /** Where the payload of the next frame of the same message must start. */
    function NextOffset(): nat { Align(offset + |payload| + HEADER_LENGTH) }
  }

  lemma WholeIsBeginAndEnd(f: Frame)
    ensures f.IsWhole() <==> f.Begins() && f.Ends()
  {
    var flags := f.flags;
    assert (flags & UNFRAGMENTED == UNFRAGMENTED) <==>
           (flags & BEGIN_FRAG == BEGIN_FRAG && flags & END_FRAG == END_FRAG);
  }

  /** What a controlled fragment handler answers; THROWN stands for an exception. */
  datatype Action = ABORT | BREAK | COMMIT | CONTINUE | THROWN

  /** A log image: where it was joined, the frames from there on, and how many were consumed. */
  datatype AnyImage = Image(joinPosition: int, frames: seq<Frame>, consumed: nat)

  type Image = i: AnyImage | i.consumed <= |i.frames| witness Image(0, [], 0)

  function Position(image: Image): int
  {
    if image.consumed == 0 then image.joinPosition else image.frames[image.consumed - 1].position
  }
}
