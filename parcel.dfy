/**
 * The slice of Android's `Parcel` the saved state uses: 32-bit integers
 * appended by `writeInt` and taken back in order by `readInt`.
 */
module Parcels {
  import opened KotlinInt

  /** What `readInt` yields at position `i`: the integer written there, or 0 past the end. */
  function IntAt(data: seq<Int32>, i: nat): Int32 {
    if i < |data| then data[i] else 0
  }

  class Parcel {
    var data: seq<Int32>
    var pos: nat

    constructor ()
      ensures data == [] && pos == 0
    {
      data := [];
      pos := 0;
    }

    method WriteInt(x: Int32)
      modifies this
      ensures data == old(data) + [x] && pos == old(pos)
    {
      data := data + [x];
    }

    method ReadInt() returns (x: Int32)
      modifies this
      ensures x == IntAt(old(data), old(pos))
      ensures data == old(data)
      ensures pos == if old(pos) < |data| then old(pos) + 1 else old(pos)
    {
      if pos < |data| {
        x := data[pos];
        pos := pos + 1;
      } else {
        x := 0;
      }
    }
  }
}
