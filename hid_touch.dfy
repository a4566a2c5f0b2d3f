/**
 * The absolute-touch report of the virtual HID device: `HIDTouch::move`
 * writes a five-byte frame (tag 0x02, then x and y, each low byte first)
 * into the device buffer.
 */
module HidTouch {

  /** `UInt8`, one byte of the report buffer. */
  newtype uint8 = n: int | 0 <= n < 0x100

  /** `UInt32`, a coordinate as the caller passes it. */
  newtype uint32 = n: int | 0 <= n < 0x1_0000_0000

  /** Report tag of the absolute-pointer report. */
  const TOUCH_REPORT_TAG: uint8 := 0x02

  /** Size of the touch report frame in bytes. */
  const DATA_SIZE: nat := 5

  /** Bits 0..7 of a coordinate, `v & 255`; on an unsigned value the mask is the remainder by 256. */
  function LowByte(v: uint32): (b: uint8)
    ensures (v as int - b as int) % 256 == 0
  {
    (v % 256) as uint8
  }

  /** Bits 8..15 of a coordinate, `(v >> 8) & 255`; the unsigned shift by 8 is the quotient by 256. */
  function HighByte(v: uint32): (b: uint8)
    ensures 256 * b as int + LowByte(v) as int == v as int % 65536
  {
    ((v / 256) % 256) as uint8
  }

  /** The frame `move(x, y)` leaves in bytes 0..4 of the buffer. */
  function TouchFrame(x: uint32, y: uint32): (frame: seq<uint8>)
    ensures |frame| == DATA_SIZE
  {
    [TOUCH_REPORT_TAG, LowByte(x), HighByte(x), LowByte(y), HighByte(y)]
  }

  /** How the device reads a coordinate back from its two bytes, low byte first. */
  function Reassemble(lo: uint8, hi: uint8): (v: nat)
    ensures v < 65536
  {
    lo as nat + 256 * hi as nat
  }

  /** Splitting and reassembling keeps exactly the low 16 bits; higher bits are dropped without error. */
  lemma SplitTruncates(v: uint32)
    ensures Reassemble(LowByte(v), HighByte(v)) == v as int % 65536
  {
  }

  /** A coordinate below 65536 survives the split unchanged. */
  lemma SplitRoundTrip(v: uint32)
    requires v < 65536
    ensures Reassemble(LowByte(v), HighByte(v)) == v as int
  {
  }

  /** Decoding a whole frame gives back the tag and both coordinates modulo 65536. */
  lemma FrameDecodes(x: uint32, y: uint32)
    ensures TouchFrame(x, y)[0] == 0x02
    ensures Reassemble(TouchFrame(x, y)[1], TouchFrame(x, y)[2]) == x as int % 65536
    ensures Reassemble(TouchFrame(x, y)[3], TouchFrame(x, y)[4]) == y as int % 65536
  {
  }

  /** The touch device with its report buffer of `DATA_SIZE` bytes. */
  class HIDTouch {
    const data: array<uint8>

    constructor ()
      ensures data.Length == DATA_SIZE && fresh(data)
    {
      data := new uint8[DATA_SIZE];
    }

    /**
     * `HIDTouch::move(x, y)`: writes the frame into bytes 0..4 in place and
     * leaves every other byte of the buffer as it was.
     */
    method Move(x: uint32, y: uint32)
      requires DATA_SIZE <= data.Length
      modifies data
      ensures data[..DATA_SIZE] == TouchFrame(x, y)
      ensures data[DATA_SIZE..] == old(data[DATA_SIZE..])
      ensures data[0] == 0x02
      ensures data[1] as int == x as int % 256 && data[2] as int == (x as int / 256) % 256
      ensures data[3] as int == y as int % 256 && data[4] as int == (y as int / 256) % 256
    {
      data[0] := TOUCH_REPORT_TAG;
      data[1] := LowByte(x);
      data[2] := HighByte(x);
      data[3] := LowByte(y);
      data[4] := HighByte(y);
    }
  }
}
