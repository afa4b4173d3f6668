/** Wire constants of the ZX Gesture Sense serial stream and the small value
    types shared by the readers and the processing routines. */
module Protocol {

  /** One value read from the serial port (SerialPort.ReadByte on an open port). */
  type Byte = b: int | 0 <= b < 256

  /** End of a transmission. */
  const EndOfFrame := 255
  /** The next byte is a gesture code (and, for parameter reads, its parameters). */
  const GestureMarker := 252
  /** The next byte is a z (depth) sample. */
  const ZMarker := 251
  /** The next byte is an x (position) sample. */
  const XMarker := 250
  /** A queue holding more values than this is emptied by the overflow checks. */
  const OverflowLimit := 300
  /** Largest value still counted as data by the noise checks. */
  const NoiseCeiling := 240

  /** `None` stands for the `null` the source returns when the port is closed. */
  datatype Option<T> = None | Some(value: T)

  /** A decoded axis sample: the byte that followed an x or a z marker. */
  datatype Sample = X(v: int) | Z(v: int)

  /** The wire form of a sequence of samples: each one as its marker followed by its value. */
  function Encode(ss: seq<Sample>): (r: seq<int>)
    ensures |r| == 2 * |ss|
  {
    if ss == [] then []
    else (match ss[0] case X(v) => [XMarker, v] case Z(v) => [ZMarker, v]) + Encode(ss[1..])
  }

  /** The values of the x samples, in order. */
  function XValues(ss: seq<Sample>): seq<int>
  {
    if ss == [] then [] else (if ss[0].X? then [ss[0].v] else []) + XValues(ss[1..])
  }

  /** The values of the z samples, in order. */
  function ZValues(ss: seq<Sample>): seq<int>
  {
    if ss == [] then [] else (if ss[0].Z? then [ss[0].v] else []) + ZValues(ss[1..])
  }
}
