# ZX Gesture Sense library — a verified model

This project models the gesture library of the ZX Gesture Sense sensor
(`GestureLibrary.cs`). The sensor sends a byte stream over a serial link:

- 250 precedes an x (position) sample and 251 a z (depth) sample.
- 252 precedes a gesture code.
- 255 ends a frame.

The library has two classes, and each becomes a Dafny module:

- **`PortReading`** holds the four readers. Each pulls bytes from a port until an end byte or a gesture marker stops it:
  - `ReadSerialPort` filters one frame into a new queue and clears that queue when it overflows.
  - `ReadPortToQueue` keeps appending frames to a caller's queue until a 0 follows a 255.
  - `ReadGestureCode` returns the byte after the first 252.
  - `ReadGestureCodeAndParam` returns the run of bytes in 0..240 after the first 252.
- **`DataProcessing`** holds the routines that drain queues:
  - `SortDataXAndZ` splits raw data into an x queue and a z queue.
  - `SortDataForScroll` flattens raw data into one queue of signed values: x positive, z negated.
  - `ProcessGesture` classifies an x queue as a swipe, a bump or nothing.
  - `ProcessScroll` picks a scroll direction from hit zones, one window of reads at a time.

How the model represents the program:

- **Port.** A port is a value `Port(isOpen, bytes)`. Each reader takes a cursor and returns, with its result, the index of the first byte it did not read. A real port blocks until a byte arrives. The model instead requires that the stream already holds the bytes that end the read.
- **Queue.** The .NET `Queue` that the routines fill and drain in place is the class `Queues.Queue`, which holds a `seq<int>`. Every routine that takes a queue by reference is a method that modifies it.
- **Specification functions.** Each loop is proved against a recursive function of the input:
  - `Frame` and `Captured` for the readers;
  - `Demux` and `Flatten` for the sorters;
  - `GestureOf` for the classifier;
  - `ScrollStep` for a scroll iteration.

  Lemmas then relate these functions to independent definitions: the wire encoding of samples (`Protocol.Encode`), monotone inputs, and the last value a window reads.

Where the code does something other than its comments or a natural reading of the gestures suggests, the model follows the code:

- **Left/right scrolling and the flag.** The counter `flag` counts positive x values read. The comment at GestureLibrary.cs:603 says it "resets every third byte read", which suggests that left/right scrolling waits for three x samples. The code refuses left/right only while the counter equals exactly 3 (`flag != 3`, GestureLibrary.cs:593, 598). The counter can pass 3 within one 11-value window, and then left/right is allowed again. `DataProcessing.Zone` and `DataProcessing.ZoneExamples` state this.
- **A rise that falls back: 100, 120, 150, 170, 150, 130.** The values mostly rise, which reads naturally as a right swipe (code 1). The code tests the left bump first. All three probe values it judges by (120, 150 and 130) lie below the peak of 170, so the code returns 3 (left bump). See `DataProcessing.RiseAndFallExample`.
- **A peak on the second probe: 100, 150, 170, 150, 100, 90.** The motion rises and falls, the shape the doc comment at GestureLibrary.cs:352 calls a left bump. The code returns 2 (left swipe): the second probe is the peak itself, and the running sum falls below the minimum. See `DataProcessing.EarlyPeakExample`.
- **A valley: code 4.** The doc comment at GestureLibrary.cs:353 promises 4 for "value decreased then increased". For a valley, the code returns 4 only when the running sum stays within the maximum; otherwise it returns 1 (`DataProcessing.ValleyIsSwipeOrBump`). For example, 160, 150, 100, 90, 100, 140 gives 4 (`ValleyExample`). But 150, 150, 120, 100, 120, 150 gives 1, a right swipe, because it climbs back to its starting height (`ValleyBackToPeakExample`).

Other behaviours of the code that the model keeps:

- `ReadSerialPort` never enqueues 252, but `ReadPortToQueue` does.
- `ReadSerialPort`'s test for 255 inside its loop can never be true. It is kept as written.
- `SortDataForScroll` drops a non-marker byte together with the byte after it.
- A 0 read by a scroll window changes nothing, so an x sample of 0 is lost.
- A motionless reflector (a constant positive x queue) is classified as a right swipe (`PlateauIsRightSwipe`).
- `ProcessScroll`'s `returnVal` survives an iteration in which it clears the queue. So after one failed keystroke, every later iteration that hits no zone clears the queue again (`FailedSendPersists`).

## Model

All source paths are `GestureSenseLibrary/GestureSenseLibrary/GestureLibrary.cs`.

| member | source | states |
|---|---|---|
| PortReading.FirstOf | GestureSenseLibrary/GestureSenseLibrary/GestureLibrary.cs:73 | the index where a read stops: it holds a stop value, it lies at or after the cursor, and no byte between the cursor and it is a stop value |
| PortReading.KeepersInRange | GestureSenseLibrary/GestureSenseLibrary/GestureLibrary.cs:79-84 | filtering keeps at most as many values as bytes were read, and every kept value lies in the filter's range |
| PortReading.KeepersAppend | GestureSenseLibrary/GestureSenseLibrary/GestureLibrary.cs:125-139 | filtering two adjacent stretches of the stream and joining the results equals filtering the joined stretch, so values are enqueued in stream order |
| PortReading.KeepersKeepsAll | GestureSenseLibrary/GestureSenseLibrary/GestureLibrary.cs:131-135 | a stretch whose bytes all lie in range is enqueued whole |
| PortReading.Payload | GestureSenseLibrary/GestureSenseLibrary/GestureLibrary.cs:79 | the values ReadSerialPort's enqueue test accepts from a stretch of bytes: those in 1..251, in stream order |
| PortReading.Keep | GestureSenseLibrary/GestureSenseLibrary/GestureLibrary.cs:79-94 | one turn of ReadSerialPort's loop: the byte is enqueued when it is in 1..251, and the queue is cleared when it then holds more than 300 values and the next byte is at most 240 |
| PortReading.Frame | GestureSenseLibrary/GestureSenseLibrary/GestureLibrary.cs:73-95 | the queue ReadSerialPort builds from the cursor to the first 255, one Keep per byte read |
| PortReading.FrameIsTail | GestureSenseLibrary/GestureSenseLibrary/GestureLibrary.cs:73-95 | the queue ReadSerialPort builds is either the starting queue followed by the whole frame's payload, or (after an overflow clear) just the payload of some tail of the frame |
| PortReading.FrameWithinLimit | GestureSenseLibrary/GestureSenseLibrary/GestureLibrary.cs:90-94 | while the queue plus the frame's payload stays within 300 values, nothing is cleared and the result is the queue followed by the payload |
| PortReading.FrameBound | GestureSenseLibrary/GestureSenseLibrary/GestureLibrary.cs:90-94 | when every byte before the 255 is at most 240, the returned queue holds at most 301 values |
| PortReading.FrameHighBytesKept | GestureSenseLibrary/GestureSenseLibrary/GestureLibrary.cs:90-94 | bytes in 241..251 never trigger the clear: such a frame is returned whole, however long, so the queue can exceed 300 values |
| PortReading.ReadSerialPort | GestureSenseLibrary/GestureSenseLibrary/GestureLibrary.cs:56-97 | a closed port gives null. Otherwise the result is the frame up to the first 255 as the loop builds it, and the cursor ends just past that 255. Every value is in 1..251, so 0, 252 and 255 never appear. A leading 255 gives an empty queue |
| PortReading.HaltIndex | GestureSenseLibrary/GestureSenseLibrary/GestureLibrary.cs:121-142 | where ReadPortToQueue stops: a 0 that is the first byte or follows a 255, with no 255 followed by a 0 earlier |
| PortReading.Captured | GestureSenseLibrary/GestureSenseLibrary/GestureLibrary.cs:125-139 | the values the inner loop of ReadPortToQueue enqueues from a stretch of bytes: those in 1..252, in stream order |
| PortReading.ReadPortToQueue | GestureSenseLibrary/GestureSenseLibrary/GestureLibrary.cs:105-144 | a closed port leaves the queue and the cursor alone. Otherwise the queue gains exactly the bytes in 1..252, in stream order, up to the 0 that stops the read, and the cursor ends just past that 0 |
| PortReading.ReadFrameToQueue | GestureSenseLibrary/GestureSenseLibrary/GestureLibrary.cs:124-141 | the inner loop reads on to the first 255 at or after its cursor, and appends the bytes in 1..252 before it; it then reads the byte after that 255 |
| PortReading.HaltAtFirstByte | GestureSenseLibrary/GestureSenseLibrary/GestureLibrary.cs:117-122 | a 0 as the first byte stops the read at once with nothing enqueued |
| PortReading.HaltsHere | GestureSenseLibrary/GestureSenseLibrary/GestureLibrary.cs:122 | a 0 at a frame start (the first byte or the byte after a 255) at or before the stop index is the stop index |
| PortReading.WholeFrameCaptured | GestureSenseLibrary/GestureSenseLibrary/GestureLibrary.cs:122-141 | a frame of values in 1..252, then 255, then 0, is enqueued whole and the read stops at that 0 |
| PortReading.CodeAfterNoise | GestureSenseLibrary/GestureSenseLibrary/GestureLibrary.cs:168-179 | after bytes that are neither 252 nor 255, a 252 and a code, the code is returned |
| PortReading.NoCodeBeforeEnd | GestureSenseLibrary/GestureSenseLibrary/GestureLibrary.cs:168-183 | a 255 before any 252 gives -1 |
| PortReading.CodeAt | GestureSenseLibrary/GestureSenseLibrary/GestureLibrary.cs:163-183 | what ReadGestureCode returns: the byte after the first 252, or -1 when a 255 comes first |
| PortReading.ReadGestureCode | GestureSenseLibrary/GestureSenseLibrary/GestureLibrary.cs:151-184 | a closed port gives -1. Otherwise the result is the byte right after the first 252, or -1 when a 255 comes first, and the cursor ends just past the last byte read |
| PortReading.ParamsAt | GestureSenseLibrary/GestureSenseLibrary/GestureLibrary.cs:215-228 | every returned gesture code and parameter lies in 0..240 |
| PortReading.ParamsAfterNoise | GestureSenseLibrary/GestureSenseLibrary/GestureLibrary.cs:209-228 | after noise and a 252, the whole run of bytes in 0..240 is returned, and nothing after the byte that ends the run |
| PortReading.NoParamsBeforeEnd | GestureSenseLibrary/GestureSenseLibrary/GestureLibrary.cs:209-233 | a 255 before any 252 gives an empty queue |
| PortReading.ReadGestureCodeAndParam | GestureSenseLibrary/GestureSenseLibrary/GestureLibrary.cs:191-234 | a closed port gives null. Otherwise the result is the maximal run of bytes in 0..240 right after the first 252 (empty when a 255 comes first), and the cursor ends just past the byte that ended the read |
| PortReading.ReadParams | GestureSenseLibrary/GestureSenseLibrary/GestureLibrary.cs:218-227 | collects the bytes after a 252 up to the first byte outside 0..240, and ends just past that byte |
| DataProcessing.DemuxLength | GestureSenseLibrary/GestureSenseLibrary/GestureLibrary.cs:261-283 | every value routed to the x or z queue consumes its marker and itself: twice the number routed is at most the input length |
| DataProcessing.Sortable | GestureSenseLibrary/GestureSenseLibrary/GestureLibrary.cs:258-283 | the raw data on which SortDataXAndZ's loops end without spinning or throwing: no 255 where a group starts, and every marker followed by a byte |
| DataProcessing.Demux | GestureSenseLibrary/GestureSenseLibrary/GestureLibrary.cs:258-285 | the x values (each byte after a 250) and the z values (each byte after a 251), in order; other bytes are skipped |
| DataProcessing.SortDataXAndZ | GestureSenseLibrary/GestureSenseLibrary/GestureLibrary.cs:249-287 | the raw queue ends empty. The x queue gains the bytes after each 250, and the z queue the bytes after each 251, in order; nothing else is added. An empty input changes nothing |
| DataProcessing.DemuxEncode | GestureSenseLibrary/GestureSenseLibrary/GestureLibrary.cs:264-277 | sorting the wire form of any sample sequence gives back exactly its x values and its z values, in order |
| DataProcessing.DemuxDropsNoise | GestureSenseLibrary/GestureSenseLibrary/GestureLibrary.cs:278-282 | bytes that are neither a marker nor 255 are dropped and add nothing to either queue |
| DataProcessing.Flatten | GestureSenseLibrary/GestureSenseLibrary/GestureLibrary.cs:305-338 | the signed queue has at most one value per raw byte |
| DataProcessing.SortDataForScroll | GestureSenseLibrary/GestureSenseLibrary/GestureLibrary.cs:294-345 | one drain pass empties the raw queue and appends its flattened signed values to the clean queue |
| DataProcessing.FlattenEncode | GestureSenseLibrary/GestureSenseLibrary/GestureLibrary.cs:310-332 | one value per marker: samples below 240 come out as their signed values (x positive, z negated) |
| DataProcessing.FlattenDropsPairs | GestureSenseLibrary/GestureSenseLibrary/GestureLibrary.cs:335-338 | a byte that is not a marker is discarded together with the byte after it |
| DataProcessing.FlattenRange | GestureSenseLibrary/GestureSenseLibrary/GestureLibrary.cs:310-332 | from bytes in 0..255, every output lies strictly between -240 and 240, or is 250 or -251 (a marker kept as a value when no usable sample follows it) |
| DataProcessing.Max | GestureSenseLibrary/GestureSenseLibrary/GestureLibrary.cs:401-404 | the maximum is one of the values and bounds them all |
| DataProcessing.Min | GestureSenseLibrary/GestureSenseLibrary/GestureLibrary.cs:405-408 | the minimum is one of the values and is bounded by them all |
| DataProcessing.Classify | GestureSenseLibrary/GestureSenseLibrary/GestureLibrary.cs:442-470 | the code is one of -1, 1, 2, 3, 4. It is 3 exactly when all three probes lie below the maximum, and -1 only when the sum lies between the minimum and the maximum |
| DataProcessing.GestureOf | GestureSenseLibrary/GestureSenseLibrary/GestureLibrary.cs:360-438 | the gesture of a queue: -1 below five values; otherwise Classify of the probes q[1], q[2] and the last value, of the maximum and minimum of q[1..], and of the trend sum |
| DataProcessing.ProcessGesture | GestureSenseLibrary/GestureSenseLibrary/GestureLibrary.cs:357-471 | returns the gesture of the queue as it was, as Classify decides it. An empty queue is left alone, one to four values lose only the first, and five or more are drained |
| DataProcessing.TrendSum | GestureSenseLibrary/GestureSenseLibrary/GestureLibrary.cs:411-419 | the running sum: each value after the first is added when it did not fall and subtracted when it fell |
| DataProcessing.TrendSumRising | GestureSenseLibrary/GestureSenseLibrary/GestureLibrary.cs:411-419 | for two or more positive values that never fall, the running sum is at least the last value, and from three values on it exceeds it |
| DataProcessing.TrendSumFalling | GestureSenseLibrary/GestureSenseLibrary/GestureLibrary.cs:411-419 | for strictly falling positive values the running sum is negative |
| DataProcessing.IncreasingIsRightSwipe | GestureSenseLibrary/GestureSenseLibrary/GestureLibrary.cs:442-454 | strictly rising positive values, five or more, give 1 (right swipe: value increased) |
| DataProcessing.DecreasingIsLeftSwipe | GestureSenseLibrary/GestureSenseLibrary/GestureLibrary.cs:442-468 | strictly falling positive values, five or more, give 2 (left swipe: value decreased) |
| DataProcessing.PeakIsBumpLeft | GestureSenseLibrary/GestureSenseLibrary/GestureLibrary.cs:442-447 | values that rise to a peak after the second probe and fall before the last give 3 (left bump: increased then decreased) |
| DataProcessing.PlateauIsRightSwipe | GestureSenseLibrary/GestureSenseLibrary/GestureLibrary.cs:411-454 | a constant positive queue gives 1: every value counts up, so the sum exceeds the maximum |
| DataProcessing.RiseAndFallExample | GestureSenseLibrary/GestureSenseLibrary/GestureLibrary.cs:442-447 | 100, 120, 150, 170, 150, 130 gives 3 |
| DataProcessing.EarlyPeakExample | GestureSenseLibrary/GestureSenseLibrary/GestureLibrary.cs:442-468 | 100, 150, 170, 150, 100, 90 gives 2 |
| DataProcessing.ValleyIsSwipeOrBump | GestureSenseLibrary/GestureSenseLibrary/GestureLibrary.cs:442-462 | values that fall strictly to a valley after the second probe and rise strictly to the last value give 1 or 4, never 3. The result is 4 (right bump: decreased then increased) exactly when the trend sum is at most the maximum |
| DataProcessing.ValleyExample | GestureSenseLibrary/GestureSenseLibrary/GestureLibrary.cs:455-462 | 160, 150, 100, 90, 100, 140 gives 4 |
| DataProcessing.ValleyBackToPeakExample | GestureSenseLibrary/GestureSenseLibrary/GestureLibrary.cs:448-454 | 150, 150, 120, 100, 120, 150 gives 1: a valley read as a right swipe |
| DataProcessing.Zone | GestureSenseLibrary/GestureSenseLibrary/GestureLibrary.cs:583-601 | each direction is chosen exactly when (x, z) lies in its zone, so the four zones are disjoint. Left and right also need a flag other than 3. No direction is chosen exactly when no allowed zone is hit |
| DataProcessing.ZoneExamples | GestureSenseLibrary/GestureSenseLibrary/GestureLibrary.cs:583-601 | (125, 20) scrolls down and (125, 80) up. (90, 50) scrolls left with flag 1 or 4 but not with flag 3; (150, 50) scrolls right with flag 2 but not with flag 3 |
| DataProcessing.ScrollStep | GestureSenseLibrary/GestureSenseLibrary/GestureLibrary.cs:541-617 | an iteration starts on a non-empty queue (the guard at :539). Afterwards the flag is 0, 1 or 2; at least min(11, count) values are consumed; and what remains is empty or an untouched suffix of the queue |
| DataProcessing.ProcessScrollStep | GestureSenseLibrary/GestureSenseLibrary/GestureLibrary.cs:541-617 | the loop's carried variables, the direction sent and the queue left behind are those of one iteration as ScrollStep defines it |
| DataProcessing.Absorb | GestureSenseLibrary/GestureSenseLibrary/GestureLibrary.cs:559-571 | one read of a scroll window: a negative value sets zVal to its size, a positive value sets xVal and raises the flag, 0 changes nothing |
| DataProcessing.Window | GestureSenseLibrary/GestureSenseLibrary/GestureLibrary.cs:542-574 | a scroll window of reads, one Absorb per value |
| DataProcessing.WindowFlag | GestureSenseLibrary/GestureSenseLibrary/GestureLibrary.cs:542-574 | a window raises the flag by one per positive value read and leaves the send result alone |
| DataProcessing.WindowLastX | GestureSenseLibrary/GestureSenseLibrary/GestureLibrary.cs:565-571 | after a window, xVal is the last positive value read, or unchanged if none was read |
| DataProcessing.WindowLastZ | GestureSenseLibrary/GestureSenseLibrary/GestureLibrary.cs:559-564 | after a window, zVal is the size of the last negative value read, or unchanged if none was read |
| DataProcessing.FailedSendClears | GestureSenseLibrary/GestureSenseLibrary/GestureLibrary.cs:583-612 | when a zone is hit and the keystroke fails, the queue is emptied and -1 is carried to the next iteration |
| DataProcessing.FailedSendPersists | GestureSenseLibrary/GestureSenseLibrary/GestureLibrary.cs:610-617 | a failure carried from an earlier iteration empties the queue again on every iteration that hits no zone, and stays carried |
| DataProcessing.BacklogClears | GestureSenseLibrary/GestureSenseLibrary/GestureLibrary.cs:610-613 | more than 300 values left after the window empties the queue |
| DataProcessing.ScrollKeepsRest | GestureSenseLibrary/GestureSenseLibrary/GestureLibrary.cs:610-617 | with no failure carried, no failing keystroke and at most 311 values, the queue keeps everything after the window and the carried result becomes 0 |

## Left out

- `CreatePort` and the .NET `SerialPort` are not modelled. `IsOpen` and `ReadByte` become the `Port` value and its byte sequence.
- A real read blocks until a byte arrives. Instead, each reader requires that its ending bytes are in the stream:
  - `ReadSerialPort` needs a 255;
  - `ReadPortToQueue` needs a first byte of 0, or a 255 followed by a 0;
  - `ReadGestureCode` needs a 252 with a byte after it, or a 255;
  - `ReadGestureCodeAndParam` needs, after its 252, a byte above 240.
- `ReadByte` returning -1 at the end of a stream is not modelled: every byte is in 0..255.
- Console logging is not modelled; it is output only.
- The `Thread.Sleep` waits in `SortDataForScroll` and `ProcessScroll` are not modelled. They wait for another thread to fill the queue.
  - `SortDataForScroll` is modelled as one drain pass that stops when the queue is empty.
  - `ProcessScroll` runs an iteration only once the queue holds a value (GestureLibrary.cs:533-539, 620-623). So `ScrollStep`, `ProcessScrollStep` and the lemmas about them require a non-empty queue.
- The endless outer loop of `ProcessScroll` is not modelled. One iteration is `ProcessScrollStep`, and the variables that live across iterations are carried in `ScrollState`.
- `SendKeystroke` and `SendKeystrokeToScroll` (keystroke injection, process lookup, active-window check) are not modelled, nor are `GetActiveWindowTitle` and the `user32.dll` imports. What `SendKeystrokeToScroll` returns is the parameter `sent` (-1 or 1).
- The `NullReferenceException` catch in `ProcessScroll` is not modelled. Dequeuing a non-empty queue cannot fail in the model.
- `SortDataXAndZ` takes a `Sortable` input. The code spins forever on a 255 where a group starts, and throws when a marker is the last byte.
- The queues passed by reference are required to be distinct objects. Aliasing between them is not modelled.
- Queue elements are `object` in .NET and `int` here. Every value the library enqueues is an `int`.
- The inner loops of `ReadPortToQueue` and `ReadGestureCodeAndParam` are written as the methods `ReadFrameToQueue` and `ReadParams`. They read the same bytes in the same order.
- `ProcessGesture`'s `numVals` is computed and never used. It is left out.
- GestureOf: C# `int` is 32 bits, and the model's `int` is unbounded. `sum` in `ProcessGesture` (GestureLibrary.cs:364, 413, 418) wraps once the running sum passes 2^31, which takes about 8.4 million byte-sized values. The model does not wrap. For example, five copies of 2147483647 give 2 in C# but 1 in the model. Every value the readers produce is below 256, so the two agree on any queue shorter than about 8.4 million values. `TrendSum`, `ProcessGesture` and the gesture lemmas inherit this.
- Flatten: `-v` stands for C#'s 32-bit negation, as does `readVal *= -1` in `Absorb` and `ProcessScrollStep` (GestureLibrary.cs:329, 562). The two differ only at `int.MinValue`, which a queue of bytes and their negations never holds.
