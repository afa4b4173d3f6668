/** The readers of the PortReading class: each pulls bytes from an open serial
    port until an end-of-frame byte (or a gesture marker) tells it to stop.

    The port is a finite byte stream with a cursor: a reader starts at index
    `from` and returns, beside its result, the index of the first byte it left
    unread. Where the real port would block waiting for more bytes, the model
    instead requires that the stream holds the bytes that end the read. */
module PortReading {
  import opened Protocol
  import opened Queues

  /** A serial port: whether it is open, and every byte it will deliver. */
  datatype Port = Port(isOpen: bool, bytes: seq<Byte>)

  const EndOnly: set<int> := {EndOfFrame}
  const MarkerOrEnd: set<int> := {GestureMarker, EndOfFrame}
  /** The byte values that end a run of gesture parameters (a byte leaves 0..240). */
  const AboveNoise: set<int> := set v | NoiseCeiling < v < 256

  // ---------------------------------------------------------------------------
  // Scanning and filtering

  /** Some value of `stops` occurs in `s` at or after `from`. */
  predicate Occurs(s: seq<int>, from: nat, stops: set<int>)
  {
    exists j :: from <= j < |s| && s[j] in stops
  }

  /** The index of the first value of `stops` at or after `from`. */
  function FirstOf(s: seq<int>, from: nat, stops: set<int>): (k: nat)
    requires Occurs(s, from, stops)
    ensures from <= k < |s| && s[k] in stops
    ensures forall i :: from <= i < k ==> s[i] !in stops
    decreases |s| - from
  {
    if s[from] in stops then from else FirstOf(s, from + 1, stops)
  }

  /** The values of s[from..until] that lie in lo..hi, in stream order. */
  function Keepers(s: seq<int>, from: nat, until: nat, lo: int, hi: int): seq<int>
    requires from <= until <= |s|
    decreases until
  {
    if until == from then []
    else Keepers(s, from, until - 1, lo, hi) + (if lo <= s[until - 1] <= hi then [s[until - 1]] else [])
  }

  /** Only values in lo..hi are kept, and nothing is added. */
  lemma {:induction false} KeepersInRange(s: seq<int>, from: nat, until: nat, lo: int, hi: int)
    requires from <= until <= |s|
    ensures |Keepers(s, from, until, lo, hi)| <= until - from
    ensures forall i :: 0 <= i < |Keepers(s, from, until, lo, hi)| ==> lo <= Keepers(s, from, until, lo, hi)[i] <= hi
    decreases until
  {
    if until > from {
      KeepersInRange(s, from, until - 1, lo, hi);
    }
  }

  /** Filtering two adjacent stretches and joining the results filters their join. */
  lemma {:induction false} KeepersAppend(s: seq<int>, from: nat, mid: nat, until: nat, lo: int, hi: int)
    requires from <= mid <= until <= |s|
    ensures Keepers(s, from, until, lo, hi) == Keepers(s, from, mid, lo, hi) + Keepers(s, mid, until, lo, hi)
    decreases until - mid
  {
    if until > mid {
      KeepersAppend(s, from, mid, until - 1, lo, hi);
    }
  }

  /** Filtering a stretch keeps or drops its first value, then filters the rest. */
  lemma KeepersFirst(s: seq<int>, from: nat, until: nat, lo: int, hi: int)
    requires from < until <= |s|
    ensures Keepers(s, from, until, lo, hi)
         == (if lo <= s[from] <= hi then [s[from]] else []) + Keepers(s, from + 1, until, lo, hi)
  {
    KeepersAppend(s, from, from + 1, until, lo, hi);
  }

  /** No in-range value is dropped: a stretch whose values all lie in range is kept whole. */
  lemma {:induction false} KeepersKeepsAll(s: seq<int>, from: nat, until: nat, lo: int, hi: int)
    requires from <= until <= |s|
    requires forall i :: from <= i < until ==> lo <= s[i] <= hi
    ensures Keepers(s, from, until, lo, hi) == s[from..until]
    decreases until
  {
    if until > from {
      KeepersKeepsAll(s, from, until - 1, lo, hi);
      assert s[from..until] == s[from..until - 1] + [s[until - 1]];
    }
  }

  /** The bytes of s[from..until] that ReadSerialPort treats as payload: 1..251. */
  function Payload(s: seq<int>, from: nat, until: nat): seq<int>
    requires from <= until <= |s|
  {
    Keepers(s, from, until, 1, GestureMarker - 1)
  }

  /** The bytes of s[from..until] that ReadPortToQueue enqueues: 1..252. */
  function Captured(s: seq<int>, from: nat, until: nat): seq<int>
    requires from <= until <= |s|
  {
    Keepers(s, from, until, 1, GestureMarker)
  }

  // ---------------------------------------------------------------------------
  // ReadSerialPort

  /** One turn of ReadSerialPort's loop: keep `v` if it is payload, then, having
      read `next`, empty the queue if it holds more than 300 values and `next`
      is no more than 240. */
  function Keep(q: seq<int>, v: int, next: int): seq<int>
  {
    var q' := if 0 < v < GestureMarker then q + [v] else q;
    if |q'| > OverflowLimit && next <= NoiseCeiling then [] else q'
  }

  /** The queue ReadSerialPort holds after starting from `q` with the bytes
      s[i..k] still to read, s[k] being the 255 that ends the frame. */
  function Frame(q: seq<int>, s: seq<int>, i: nat, k: nat): seq<int>
    requires i <= k < |s|
    decreases k - i
  {
    if i == k then q else Frame(Keep(q, s[i], s[i + 1]), s, i + 1, k)
  }

  /** Clearing only ever drops a prefix: the queue is `q` followed by the
      payload of the whole frame (`j` = `i`), or the payload of the frame's
      tail from some later `j` on. */
  lemma {:induction false} FrameIsTail(q: seq<int>, s: seq<int>, i: nat, k: nat) returns (j: nat)
    requires i <= k < |s|
    ensures i <= j <= k
    ensures Frame(q, s, i, k) == (if j == i then q else []) + Payload(s, j, k)
    decreases k - i
  {
    if i == k {
      return i;
    }
    var q1 := if 0 < s[i] < GestureMarker then q + [s[i]] else q;
    var j' := FrameIsTail(Keep(q, s[i], s[i + 1]), s, i + 1, k);
    if j' > i + 1 {
      j := j';
    } else if |q1| > OverflowLimit && s[i + 1] <= NoiseCeiling {
      assert Keep(q, s[i], s[i + 1]) == [];
      j := i + 1;
    } else {
      assert Keep(q, s[i], s[i + 1]) == q1;
      KeepersFirst(s, i, k, 1, GestureMarker - 1);
      j := i;
    }
  }

  /** While the frame's payload keeps the queue within 300 values, nothing is cleared. */
  lemma {:induction false} FrameWithinLimit(q: seq<int>, s: seq<int>, i: nat, k: nat)
    requires i <= k < |s|
    requires |q| + |Payload(s, i, k)| <= OverflowLimit
    ensures Frame(q, s, i, k) == q + Payload(s, i, k)
    decreases k - i
  {
    if i < k {
      KeepersFirst(s, i, k, 1, GestureMarker - 1);
      FrameWithinLimit(Keep(q, s[i], s[i + 1]), s, i + 1, k);
    }
  }

  /** When every byte before the final 255 is at most 240, each overflow check
      can fire, so the returned queue holds at most 301 values. */
  lemma {:induction false} FrameBound(q: seq<int>, s: seq<int>, i: nat, k: nat)
    requires i <= k < |s| && s[k] == EndOfFrame
    requires |q| <= OverflowLimit
    requires forall m :: i <= m < k ==> s[m] <= NoiseCeiling
    ensures |Frame(q, s, i, k)| <= OverflowLimit + 1
    decreases k - i
  {
    if i + 1 < k {
      FrameBound(Keep(q, s[i], s[i + 1]), s, i + 1, k);
    }
  }

  /** Payload bytes above 240 never trigger the overflow check, so a frame of
      them is kept whole however long it is: the queue can exceed 300 values. */
  lemma {:induction false} FrameHighBytesKept(q: seq<int>, s: seq<int>, i: nat, k: nat)
    requires i <= k < |s| && s[k] == EndOfFrame
    requires forall m :: i <= m < k ==> NoiseCeiling < s[m] < GestureMarker
    ensures Frame(q, s, i, k) == q + s[i..k]
    decreases k - i
  {
    if i < k {
      assert Keep(q, s[i], s[i + 1]) == q + [s[i]];
      FrameHighBytesKept(q + [s[i]], s, i + 1, k);
      assert q + [s[i]] + s[i + 1..k] == q + s[i..k];
    }
  }

  /** Reads one frame into a new queue. A closed port gives `None` (the source's
      `null`). The cursor ends just past the 255 that ends the frame. */
  method ReadSerialPort(port: Port, from: nat) returns (r: Option<seq<int>>, next: nat)
    requires from <= |port.bytes|
    requires port.isOpen ==> Occurs(port.bytes, from, EndOnly)
    ensures !port.isOpen ==> r == None && next == from
    ensures port.isOpen ==>
      var k := FirstOf(port.bytes, from, EndOnly);
      r == Some(Frame([], port.bytes, from, k)) && next == k + 1
    ensures r.Some? ==> forall i :: 0 <= i < |r.value| ==> 0 < r.value[i] < GestureMarker
    ensures port.isOpen && port.bytes[from] == EndOfFrame ==> r == Some([])
  {
    if !port.isOpen {
      return None, from;
    }
    ghost var k := FirstOf(port.bytes, from, EndOnly);
    var myData: seq<int> := [];
    var val: int := port.bytes[from];
    next := from + 1;
    while val != EndOfFrame
      invariant from < next <= k + 1
      invariant val == port.bytes[next - 1]
      invariant Frame(myData, port.bytes, next - 1, k) == Frame([], port.bytes, from, k)
      decreases k + 1 - next
    {
      // The 255 test below is never true inside the loop; it is kept as written.
      if val == EndOfFrame || (val < GestureMarker && val > 0) {
        myData := myData + [val];
      }
      val := port.bytes[next];
      next := next + 1;
      if |myData| > OverflowLimit && val <= NoiseCeiling {
        myData := [];
      }
    }
    r := Some(myData);
    ghost var j := FrameIsTail([], port.bytes, from, k);
    KeepersInRange(port.bytes, j, k, 1, GestureMarker - 1);
  }

  // ---------------------------------------------------------------------------
  // ReadPortToQueue

  /** A 255 at `j` followed by a 0: the point where ReadPortToQueue stops. */
  predicate StopsAt(s: seq<int>, j: nat)
  {
    j + 1 < |s| && s[j] == EndOfFrame && s[j + 1] == 0
  }

  /** ReadPortToQueue, started at `from`, returns: the first byte is 0, or a 255 followed by a 0 comes later. */
  predicate Halts(s: seq<int>, from: nat)
  {
    from < |s| && (s[from] == 0 || exists j :: from <= j < |s| && StopsAt(s, j))
  }

  /** The first 255 at or after `from` that is followed by a 0. */
  function FirstStop(s: seq<int>, from: nat): (j: nat)
    requires exists j :: from <= j < |s| && StopsAt(s, j)
    ensures from <= j && StopsAt(s, j)
    ensures forall i :: from <= i < j ==> !StopsAt(s, i)
    decreases |s| - from
  {
    if StopsAt(s, from) then from else FirstStop(s, from + 1)
  }

  /** The index of the 0 at which ReadPortToQueue stops. */
  function HaltIndex(s: seq<int>, from: nat): (e: nat)
    requires Halts(s, from)
    ensures from <= e < |s| && s[e] == 0
    ensures e == from || (s[from] != 0 && s[e - 1] == EndOfFrame)
    ensures forall i :: from <= i && i + 1 < e ==> !StopsAt(s, i)
  {
    if s[from] == 0 then from else FirstStop(s, from) + 1
  }

  /** Reads frames into `myData` until a 0 arrives where a frame would begin.
      A closed port leaves the queue alone. */
  method ReadPortToQueue(myData: Queue, port: Port, from: nat) returns (next: nat)
    requires from <= |port.bytes|
    requires port.isOpen ==> Halts(port.bytes, from)
    modifies myData
    ensures !port.isOpen ==> myData.items == old(myData.items) && next == from
    ensures port.isOpen ==>
      var e := HaltIndex(port.bytes, from);
      myData.items == old(myData.items) + Captured(port.bytes, from, e) && next == e + 1
  {
    if !port.isOpen {
      return from;
    }
    ghost var s := port.bytes;
    ghost var e := HaltIndex(s, from);
    ghost var q0 := myData.items;
    var val: int := port.bytes[from];
    next := from + 1;
    while val != 0
      invariant from < next <= e + 1
      invariant val == s[next - 1]
      invariant next - 1 == from || s[next - 2] == EndOfFrame
      invariant myData.items == q0 + Captured(s, from, next - 1)
      decreases e + 1 - next
    {
      // A frame begins at next - 1, before the 0 at e, so the 255 at e - 1 ends it.
      assert next - 1 < e && s[e - 1] == EndOfFrame;
      ghost var p := next - 1;
      val, next := ReadFrameToQueue(myData, port, next, e - 1);
      CapturedJoin(q0, s, from, p, next - 1);
    }
    HaltsHere(s, from, next - 1);
  }

  /** Capturing two adjacent stretches captures their join. */
  lemma CapturedJoin(q: seq<int>, s: seq<int>, from: nat, p: nat, m: nat)
    requires from <= p <= m <= |s|
    ensures q + Captured(s, from, p) + Captured(s, p, m) == q + Captured(s, from, m)
  {
    KeepersAppend(s, from, p, m, 1, GestureMarker);
  }

  /** The inner loop of ReadPortToQueue: the byte at `next0 - 1` has been read;
      reads on to the next 255, enqueuing the bytes in 1..252, then reads the
      byte after that 255 into `val`. */
  method ReadFrameToQueue(myData: Queue, port: Port, next0: nat, ghost end: nat) returns (val: int, next: nat)
    requires 0 < next0 <= end + 1 && end + 1 < |port.bytes| && port.bytes[end] == EndOfFrame
    modifies myData
    ensures next0 < next <= end + 2 && port.bytes[next - 2] == EndOfFrame && val == port.bytes[next - 1]
    ensures forall i :: next0 - 1 <= i < next - 2 ==> port.bytes[i] != EndOfFrame
    ensures myData.items == old(myData.items) + Captured(port.bytes, next0 - 1, next - 1)
  {
    ghost var s: seq<int> := port.bytes;
    ghost var q0 := myData.items;
    next := next0;
    val := port.bytes[next - 1];
    while val != EndOfFrame
      invariant next0 <= next <= end + 1
      invariant val == s[next - 1]
      invariant forall i :: next0 - 1 <= i < next - 1 ==> s[i] != EndOfFrame
      invariant myData.items == q0 + Captured(s, next0 - 1, next - 1)
      decreases end + 1 - next
    {
      if val <= GestureMarker && val > 0 {
        myData.Enqueue(val);
      }
      val := port.bytes[next];
      next := next + 1;
    }
    val := port.bytes[next];
    next := next + 1;
  }

  /** A 0 as the first byte stops ReadPortToQueue at once, with nothing enqueued. */
  lemma HaltAtFirstByte(s: seq<int>, from: nat)
    requires from < |s| && s[from] == 0
    ensures Halts(s, from) && HaltIndex(s, from) == from && Captured(s, from, from) == []
  {
  }

  /** A frame of values in 1..252 that ends in 255 and is followed by a 0 is
      enqueued whole, in stream order, and the read stops at that 0. */
  lemma WholeFrameCaptured(payload: seq<int>, rest: seq<int>)
    requires forall i :: 0 <= i < |payload| ==> 0 < payload[i] <= GestureMarker
    ensures var s := payload + [EndOfFrame, 0] + rest;
      Halts(s, 0) && HaltIndex(s, 0) == |payload| + 1 && Captured(s, 0, |payload| + 1) == payload
  {
    var s := payload + [EndOfFrame, 0] + rest;
    var n := |payload|;
    assert StopsAt(s, n);
    assert forall i :: 0 <= i < n ==> s[i] == payload[i];
    KeepersKeepsAll(s, 0, n, 1, GestureMarker);
    assert s[0..n] == payload;
  }

  /** A frame start (the first byte, or the byte after a 255) not beyond the
      halting index that holds a 0 is the halting index. */
  lemma HaltsHere(s: seq<int>, from: nat, p: nat)
    requires Halts(s, from)
    requires from <= p <= HaltIndex(s, from) && s[p] == 0
    requires p == from || s[p - 1] == EndOfFrame
    ensures p == HaltIndex(s, from)
  {
    if p > from {
      assert StopsAt(s, p - 1);
    }
  }

  // ---------------------------------------------------------------------------
  // ReadGestureCode

  /** The first 252 or 255 at or after `from` exists, and a 252 has a byte after it. */
  predicate CodeReadable(s: seq<int>, from: nat)
  {
    Occurs(s, from, MarkerOrEnd) &&
    (s[FirstOf(s, from, MarkerOrEnd)] == GestureMarker ==> FirstOf(s, from, MarkerOrEnd) + 1 < |s|)
  }

  /** The gesture code in the stream at `from`: the byte after the first 252,
      or -1 when a 255 comes first. */
  function CodeAt(s: seq<int>, from: nat): int
    requires CodeReadable(s, from)
  {
    var m := FirstOf(s, from, MarkerOrEnd);
    if s[m] == EndOfFrame then -1 else s[m + 1]
  }

  /** Noise before the gesture marker is ignored: the code after the 252 is returned. */
  lemma CodeAfterNoise(noise: seq<int>, code: int, rest: seq<int>)
    requires forall i :: 0 <= i < |noise| ==> noise[i] !in MarkerOrEnd
    ensures CodeReadable(noise + [GestureMarker, code] + rest, 0)
    ensures CodeAt(noise + [GestureMarker, code] + rest, 0) == code
  {
    var s := noise + [GestureMarker, code] + rest;
    assert s[|noise|] in MarkerOrEnd;
    var m := FirstOf(s, 0, MarkerOrEnd);
    assert m == |noise|;
  }

  /** An end-of-frame byte before any gesture marker gives -1. */
  lemma NoCodeBeforeEnd(noise: seq<int>, rest: seq<int>)
    requires forall i :: 0 <= i < |noise| ==> noise[i] !in MarkerOrEnd
    ensures CodeReadable(noise + [EndOfFrame] + rest, 0)
    ensures CodeAt(noise + [EndOfFrame] + rest, 0) == -1
  {
    var s := noise + [EndOfFrame] + rest;
    assert s[|noise|] in MarkerOrEnd;
    var m := FirstOf(s, 0, MarkerOrEnd);
    assert m == |noise|;
  }

  /** Skips to the first gesture marker and returns the byte after it; -1 for a
      closed port or when a 255 comes first. */
  method ReadGestureCode(port: Port, from: nat) returns (code: int, next: nat)
    requires from <= |port.bytes|
    requires port.isOpen ==> CodeReadable(port.bytes, from)
    ensures !port.isOpen ==> code == -1 && next == from
    ensures port.isOpen ==> code == CodeAt(port.bytes, from)
    ensures port.isOpen ==>
      var m := FirstOf(port.bytes, from, MarkerOrEnd);
      next == if port.bytes[m] == EndOfFrame then m + 1 else m + 2
  {
    if !port.isOpen {
      return -1, from;
    }
    ghost var m := FirstOf(port.bytes, from, MarkerOrEnd);
    var val: int := port.bytes[from];
    next := from + 1;
    while val != EndOfFrame
      invariant from < next <= m + 1
      invariant val == port.bytes[next - 1]
      decreases m + 1 - next
    {
      if val == GestureMarker {
        code := port.bytes[next];
        next := next + 1;
        return;
      }
      val := port.bytes[next];
      next := next + 1;
    }
    code := -1;
  }

  // ---------------------------------------------------------------------------
  // ReadGestureCodeAndParam

  /** The first 252 or 255 at or after `from` exists, and after a 252 some byte leaves 0..240. */
  predicate ParamReadable(s: seq<int>, from: nat)
  {
    Occurs(s, from, MarkerOrEnd) &&
    (s[FirstOf(s, from, MarkerOrEnd)] == GestureMarker ==>
       Occurs(s, FirstOf(s, from, MarkerOrEnd) + 1, AboveNoise))
  }

  /** The gesture code and parameters in the stream at `from`: the bytes in
      0..240 that directly follow the first 252, none when a 255 comes first. */
  function ParamsAt(s: seq<Byte>, from: nat): (r: seq<int>)
    requires ParamReadable(s, from)
    ensures forall i :: 0 <= i < |r| ==> 0 <= r[i] <= NoiseCeiling
  {
    var m := FirstOf(s, from, MarkerOrEnd);
    if s[m] == EndOfFrame then []
    else
      var h := FirstOf(s, m + 1, AboveNoise);
      assert forall i :: m + 1 <= i < h ==> s[i] <= NoiseCeiling;
      s[m + 1..h]
  }

  /** After noise and a 252, the whole run of bytes in 0..240 is returned and
      nothing after the byte that ends it. */
  lemma ParamsAfterNoise(noise: seq<Byte>, params: seq<Byte>, stop: Byte, rest: seq<Byte>)
    requires forall i :: 0 <= i < |noise| ==> noise[i] !in MarkerOrEnd
    requires forall i :: 0 <= i < |params| ==> params[i] <= NoiseCeiling
    requires stop > NoiseCeiling
    ensures ParamReadable(noise + [GestureMarker] + params + [stop] + rest, 0)
    ensures ParamsAt(noise + [GestureMarker] + params + [stop] + rest, 0) == params
  {
    var s := noise + [GestureMarker] + params + [stop] + rest;
    var n := |noise|;
    assert s[n] in MarkerOrEnd;
    var m := FirstOf(s, 0, MarkerOrEnd);
    assert m == n;
    assert s[n + 1 + |params|] in AboveNoise;
    var h := FirstOf(s, n + 1, AboveNoise);
    assert h == n + 1 + |params|;
    assert s[m + 1..h] == params;
  }

  /** An end-of-frame byte before any gesture marker gives an empty queue. */
  lemma NoParamsBeforeEnd(noise: seq<Byte>, rest: seq<Byte>)
    requires forall i :: 0 <= i < |noise| ==> noise[i] !in MarkerOrEnd
    ensures ParamReadable(noise + [EndOfFrame] + rest, 0)
    ensures ParamsAt(noise + [EndOfFrame] + rest, 0) == []
  {
    var s := noise + [EndOfFrame] + rest;
    assert s[|noise|] in MarkerOrEnd;
    var m := FirstOf(s, 0, MarkerOrEnd);
    assert m == |noise|;
  }

  /** Skips to the first gesture marker and collects the bytes in 0..240 after
      it; `None` (the source's `null`) for a closed port. */
  method ReadGestureCodeAndParam(port: Port, from: nat) returns (r: Option<seq<int>>, next: nat)
    requires from <= |port.bytes|
    requires port.isOpen ==> ParamReadable(port.bytes, from)
    ensures !port.isOpen ==> r == None && next == from
    ensures port.isOpen ==> r == Some(ParamsAt(port.bytes, from))
    ensures r.Some? ==> forall i :: 0 <= i < |r.value| ==> 0 <= r.value[i] <= NoiseCeiling
    ensures port.isOpen ==>
      var m := FirstOf(port.bytes, from, MarkerOrEnd);
      next == if port.bytes[m] == EndOfFrame then m + 1 else FirstOf(port.bytes, m + 1, AboveNoise) + 1
  {
    if !port.isOpen {
      return None, from;
    }
    ghost var m := FirstOf(port.bytes, from, MarkerOrEnd);
    var myQueue: seq<int> := [];
    var val: int := port.bytes[from];
    next := from + 1;
    while val != EndOfFrame
      invariant from < next <= m + 1
      invariant val == port.bytes[next - 1]
      decreases m + 1 - next
    {
      if val == GestureMarker {
        myQueue, next := ReadParams(port, next);
        return Some(myQueue), next;
      }
      val := port.bytes[next];
      next := next + 1;
    }
    r := Some(myQueue);
  }

  /** The inner loop of ReadGestureCodeAndParam: from the byte after a 252,
      collects bytes while they lie in 0..240 and returns the index after the
      byte that ends the run. */
  method ReadParams(port: Port, start: nat) returns (params: seq<int>, next: nat)
    requires start <= |port.bytes| && Occurs(port.bytes, start, AboveNoise)
    ensures var h := FirstOf(port.bytes, start, AboveNoise);
      params == port.bytes[start..h] && next == h + 1
  {
    ghost var h := FirstOf(port.bytes, start, AboveNoise);
    params := [];
    var val: int := port.bytes[start];
    next := start + 1;
    while val >= 0 && val <= NoiseCeiling
      invariant start < next <= h + 1
      invariant val == port.bytes[next - 1]
      invariant params == port.bytes[start..next - 1]
      decreases h + 1 - next
    {
      params := params + [val];
      val := port.bytes[next];
      next := next + 1;
    }
  }
}
