/** The DataProcessing class: routines that drain the queues filled by the
    readers, split them by axis, classify a gesture, and pick a scroll
    direction. Every queue is a `Queues.Queue` changed in place. */
module DataProcessing {
  import opened Protocol
  import opened Queues

  // ---------------------------------------------------------------------------
  // SortDataXAndZ

  /** A byte that announces an axis sample. */
  predicate IsAxisMarker(v: int)
  {
    v == XMarker || v == ZMarker
  }

  /** The raw data SortDataXAndZ can drain: no 255 where a group would start
      (its loop would spin on it forever) and no marker without the byte after
      it (its second Dequeue would throw). */
  predicate Sortable(s: seq<int>)
    decreases |s|
  {
    s == [] ||
    (s[0] != EndOfFrame &&
     if IsAxisMarker(s[0]) then |s| >= 2 && Sortable(s[2..]) else Sortable(s[1..]))
  }

  /** The bytes that follow each x marker and each z marker, in order. */
  function Demux(s: seq<int>): (r: (seq<int>, seq<int>))
    requires Sortable(s)
    decreases |s|
  {
    if s == [] then ([], [])
    else if s[0] == XMarker then
      var rest := Demux(s[2..]);
      ([s[1]] + rest.0, rest.1)
    else if s[0] == ZMarker then
      var rest := Demux(s[2..]);
      (rest.0, [s[1]] + rest.1)
    else Demux(s[1..])
  }

  /** Each value sorted out takes two bytes of the input: a marker and the value. */
  lemma {:induction false} DemuxLength(s: seq<int>)
    requires Sortable(s)
    ensures 2 * (|Demux(s).0| + |Demux(s).1|) <= |s|
    decreases |s|
  {
    if s != [] {
      DemuxLength(s[if IsAxisMarker(s[0]) then 2 else 1..]);
    }
  }

  /** Moves the byte after each 250 into `xQueue` and the byte after each 251
      into `zQueue`, dropping every other byte, until `myData` is empty. */
  method SortDataXAndZ(myData: Queue, xQueue: Queue, zQueue: Queue)
    requires myData != xQueue && myData != zQueue && xQueue != zQueue
    requires Sortable(myData.items)
    modifies myData, xQueue, zQueue
    ensures myData.items == []
    ensures xQueue.items == old(xQueue.items) + Demux(old(myData.items)).0
    ensures zQueue.items == old(zQueue.items) + Demux(old(myData.items)).1
  {
    if myData.Count() == 0 {
      return;
    }
    ghost var d0 := myData.items;
    ghost var x0 := xQueue.items;
    ghost var z0 := zQueue.items;
    while myData.Count() > 0
      invariant Sortable(myData.items)
      invariant xQueue.items + Demux(myData.items).0 == x0 + Demux(d0).0
      invariant zQueue.items + Demux(myData.items).1 == z0 + Demux(d0).1
      decreases |myData.items|
    {
      while myData.Count() > 0 && myData.Peek() != EndOfFrame
        invariant Sortable(myData.items)
        invariant xQueue.items + Demux(myData.items).0 == x0 + Demux(d0).0
        invariant zQueue.items + Demux(myData.items).1 == z0 + Demux(d0).1
        decreases |myData.items|
      {
        ghost var s := myData.items;
        if myData.Peek() == XMarker {
          var marker := myData.Dequeue();
          var v := myData.Dequeue();
          assert xQueue.items + [v] + Demux(s[2..]).0 == xQueue.items + Demux(s).0;
          xQueue.Enqueue(v);
        } else if myData.Peek() == ZMarker {
          var marker := myData.Dequeue();
          var v := myData.Dequeue();
          assert zQueue.items + [v] + Demux(s[2..]).1 == zQueue.items + Demux(s).1;
          zQueue.Enqueue(v);
        } else {
          var dropped := myData.Dequeue();
        }
      }
    }
  }

  /** Sorting the wire form of a sequence of samples gives back exactly their
      x values and their z values. */
  lemma {:induction false} DemuxEncode(ss: seq<Sample>)
    ensures Sortable(Encode(ss))
    ensures Demux(Encode(ss)) == (XValues(ss), ZValues(ss))
  {
    if ss != [] {
      var s := Encode(ss);
      assert s == [if ss[0].X? then XMarker else ZMarker, ss[0].v] + Encode(ss[1..]);
      assert s[2..] == Encode(ss[1..]);
      DemuxEncode(ss[1..]);
      assert Sortable(s);
      assert Demux(s).0 == XValues(ss);
      assert Demux(s).1 == ZValues(ss);
    }
  }

  /** Bytes that are neither a marker nor 255 are dropped and add nothing. */
  lemma {:induction false} DemuxDropsNoise(noise: seq<int>, s: seq<int>)
    requires forall i :: 0 <= i < |noise| ==> !IsAxisMarker(noise[i]) && noise[i] != EndOfFrame
    requires Sortable(s)
    ensures Sortable(noise + s) && Demux(noise + s) == Demux(s)
  {
    if noise != [] {
      assert (noise + s)[0] == noise[0];
      assert (noise + s)[1..] == noise[1..] + s;
      DemuxDropsNoise(noise[1..], s);
    } else {
      assert noise + s == s;
    }
  }

  // ---------------------------------------------------------------------------
  // SortDataForScroll

  /** The signed form of a sequence of samples: x values as they are, z values negated. */
  function SignedValues(ss: seq<Sample>): (r: seq<int>)
    ensures |r| == |ss|
  {
    if ss == [] then []
    else [if ss[0].X? then ss[0].v else -ss[0].v] + SignedValues(ss[1..])
  }

  /** The queue SortDataForScroll builds from `s`: a marker followed by a byte
      below 240 gives that byte (negated after a 251) and consumes both; a
      marker followed by anything else, or by nothing, gives the marker itself
      (negated for 251); any other byte is discarded with the byte after it. */
  function Flatten(s: seq<int>): (r: seq<int>)
    ensures |r| <= |s|
    decreases |s|
  {
    if s == [] then []
    else if s[0] == XMarker then
      if |s| > 1 && s[1] < NoiseCeiling then [s[1]] + Flatten(s[2..])
      else [XMarker] + Flatten(s[1..])
    else if s[0] == ZMarker then
      if |s| > 1 && s[1] < NoiseCeiling then [-s[1]] + Flatten(s[2..])
      else [-ZMarker] + Flatten(s[1..])
    else if |s| > 1 then Flatten(s[2..])
    else []
  }

  /** One drain pass of SortDataForScroll: empties `myQueue` into `newQueue`
      as signed values. */
  method SortDataForScroll(myQueue: Queue, newQueue: Queue)
    requires myQueue != newQueue
    modifies myQueue, newQueue
    ensures myQueue.items == []
    ensures newQueue.items == old(newQueue.items) + Flatten(old(myQueue.items))
  {
    ghost var m0 := myQueue.items;
    ghost var n0 := newQueue.items;
    var readVal := 0;
    while myQueue.Count() > 0
      invariant newQueue.items + Flatten(myQueue.items) == n0 + Flatten(m0)
      decreases |myQueue.items|
    {
      ghost var s := myQueue.items;
      readVal := myQueue.Dequeue();
      if readVal == XMarker {
        if myQueue.Count() > 0 && myQueue.Peek() < NoiseCeiling {
          readVal := myQueue.Dequeue();
        }
        assert newQueue.items + [readVal] + Flatten(myQueue.items) == newQueue.items + Flatten(s);
        newQueue.Enqueue(readVal);
      } else if readVal == ZMarker {
        if myQueue.Count() > 0 && myQueue.Peek() < NoiseCeiling {
          readVal := myQueue.Dequeue();
        }
        readVal := readVal * -1;
        assert newQueue.items + [readVal] + Flatten(myQueue.items) == newQueue.items + Flatten(s);
        newQueue.Enqueue(readVal);
      } else if myQueue.Count() != 0 {
        var dropped := myQueue.Dequeue();
      }
    }
  }

  /** The wire form of samples whose values lie in 0..239 flattens to their
      signed values: one value per marker. */
  lemma {:induction false} FlattenEncode(ss: seq<Sample>)
    requires forall i :: 0 <= i < |ss| ==> 0 <= ss[i].v < NoiseCeiling
    ensures Flatten(Encode(ss)) == SignedValues(ss)
  {
    if ss != [] {
      var s := Encode(ss);
      assert s[2..] == Encode(ss[1..]);
      FlattenEncode(ss[1..]);
    }
  }

  /** Pairs that do not start with a marker are discarded whole. */
  lemma {:induction false} FlattenDropsPairs(noise: seq<int>, s: seq<int>)
    requires |noise| % 2 == 0
    requires forall i :: 0 <= i < |noise| && i % 2 == 0 ==> !IsAxisMarker(noise[i])
    ensures Flatten(noise + s) == Flatten(s)
  {
    if noise != [] {
      assert (noise + s)[0] == noise[0] && |noise + s| > 1;
      assert (noise + s)[2..] == noise[2..] + s;
      forall i | 0 <= i < |noise[2..]| && i % 2 == 0
        ensures !IsAxisMarker(noise[2..][i])
      {
        assert noise[2..][i] == noise[i + 2];
      }
      FlattenDropsPairs(noise[2..], s);
    } else {
      assert noise + s == s;
    }
  }

  /** From bytes in 0..255, every value produced is a sample below 240 in
      size, or a marker that had no sample after it (250 or -251). */
  lemma {:induction false} FlattenRange(s: seq<int>)
    requires forall i :: 0 <= i < |s| ==> 0 <= s[i] < 256
    ensures forall i :: 0 <= i < |Flatten(s)| ==>
      -NoiseCeiling < Flatten(s)[i] < NoiseCeiling || Flatten(s)[i] == XMarker || Flatten(s)[i] == -ZMarker
    decreases |s|
  {
    if s == [] {
    } else if IsAxisMarker(s[0]) && |s| > 1 && s[1] < NoiseCeiling {
      FlattenRange(s[2..]);
    } else if IsAxisMarker(s[0]) {
      FlattenRange(s[1..]);
    } else if |s| > 1 {
      FlattenRange(s[2..]);
    }
  }

  // ---------------------------------------------------------------------------
  // ProcessGesture

  const NoGesture := -1
  const RightSwipe := 1
  const LeftSwipe := 2
  const BumpLeft := 3
  const BumpRight := 4

  /** The largest value of a non-empty sequence. */
  function Max(t: seq<int>): (m: int)
    requires t != []
    ensures m in t && forall i :: 0 <= i < |t| ==> t[i] <= m
  {
    if |t| == 1 then t[0]
    else
      var m := Max(t[..|t| - 1]);
      if t[|t| - 1] > m then t[|t| - 1] else m
  }

  /** The smallest value of a non-empty sequence. */
  function Min(t: seq<int>): (m: int)
    requires t != []
    ensures m in t && forall i :: 0 <= i < |t| ==> m <= t[i]
  {
    if |t| == 1 then t[0]
    else
      var m := Min(t[..|t| - 1]);
      if t[|t| - 1] < m then t[|t| - 1] else m
  }

  /** A value counts up if it is no less than the one before it, down otherwise. */
  function Step(previous: int, v: int): int
  {
    if v >= previous then v else -v
  }

  /** The running sum of ProcessGesture: each value after the first, added
      when it did not fall and subtracted when it fell. */
  function TrendSum(s: seq<int>): int
  {
    if |s| <= 1 then 0
    else TrendSum(s[..|s| - 1]) + Step(s[|s| - 2], s[|s| - 1])
  }

  /** The branch chain that ends ProcessGesture, in its order: left bump,
      right swipe, right bump, left swipe, none. */
  function Classify(firstVal: int, secondVal: int, lastVal: int, xMax: int, xMin: int, sum: int): (g: int)
    ensures g in {NoGesture, RightSwipe, LeftSwipe, BumpLeft, BumpRight}
    ensures g == BumpLeft <==> firstVal < xMax && secondVal < xMax && lastVal < xMax
    ensures g == NoGesture ==> sum <= xMax && sum >= xMin
  {
    if firstVal < xMax && secondVal < xMax && lastVal < xMax then BumpLeft
    else if sum > xMax then RightSwipe
    else if secondVal > xMin && lastVal > xMin then BumpRight
    else if sum < xMin then LeftSwipe
    else NoGesture
  }

  /** The gesture ProcessGesture reports for the queue `q`: none for fewer
      than five values; otherwise the first value is discarded and the rest
      are classified by their first, second and last values, their maximum
      and minimum, and their trend sum. */
  function GestureOf(q: seq<int>): int
  {
    if |q| < 5 then NoGesture
    else Classify(q[1], q[2], q[|q| - 1], Max(q[1..]), Min(q[1..]), TrendSum(q))
  }

  /** Drains the x queue and classifies the motion it records. A queue of
      one to four values loses only its first value. */
  method ProcessGesture(xQueue: Queue) returns (gesture: int)
    modifies xQueue
    ensures gesture == GestureOf(old(xQueue.items))
    ensures xQueue.items ==
      if |old(xQueue.items)| == 0 then old(xQueue.items)
      else if |old(xQueue.items)| < 5 then old(xQueue.items)[1..]
      else []
  {
    if xQueue.Count() == 0 {
      return NoGesture;
    }
    ghost var q0 := xQueue.items;
    var sum := 0;
    var traverse := xQueue.Peek();
    var xMax := traverse;
    var xMin := traverse;
    var previous := traverse;
    var firstVal := traverse;
    var secondVal := traverse;
    var lastVal := 0;
    var counter := 0;
    while xQueue.Count() > 0
      invariant counter == 0 ==> xQueue.items == q0 && traverse == q0[0] && previous == q0[0] && sum == 0
      invariant counter > 0 ==>
        5 <= |q0| && counter < |q0| && xQueue.items == q0[counter + 1..] &&
        previous == q0[counter] && (counter + 1 < |q0| ==> traverse == q0[counter + 1]) &&
        firstVal == q0[1] && secondVal == q0[2] && sum == TrendSum(q0[..counter + 1]) &&
        xMax == Max(q0[1..counter + 1]) && xMin == Min(q0[1..counter + 1])
      decreases |xQueue.items|
    {
      if counter == 0 {
        var first := xQueue.Dequeue();
        if xQueue.Count() > 3 {
          traverse := xQueue.Peek();
          firstVal := traverse;
          xMax := traverse;
          xMin := traverse;
        } else {
          return NoGesture;
        }
      }
      ghost var c := counter;
      assert q0[1..c + 2] == q0[1..c + 1] + [q0[c + 1]];
      assert q0[..c + 2][..c + 1] == q0[..c + 1];
      if traverse > xMax {
        xMax := traverse;
      } else if traverse < xMin {
        xMin := traverse;
      }
      if traverse >= previous {
        sum := sum + traverse;
      } else {
        sum := sum - traverse;
      }
      previous := traverse;
      var current := xQueue.Dequeue();
      if xQueue.Count() != 0 {
        traverse := xQueue.Peek();
      }
      counter := counter + 1;
      if counter == 1 {
        secondVal := traverse;
      }
    }
    lastVal := previous;
    assert q0[1..counter + 1] == q0[1..] && q0[..counter + 1] == q0;
    gesture := Classify(firstVal, secondVal, lastVal, xMax, xMin, sum);
  }

  /** The trend sum of values that never fall is the sum of all but the first. */
  lemma {:induction false} TrendSumRising(s: seq<int>)
    requires |s| >= 2
    requires forall i, j :: 0 <= i < j < |s| ==> s[i] <= s[j]
    requires forall i :: 0 <= i < |s| ==> s[i] > 0
    ensures TrendSum(s) >= s[|s| - 1]
    ensures |s| >= 3 ==> TrendSum(s) > s[|s| - 1]
  {
    if |s| > 2 {
      TrendSumRising(s[..|s| - 1]);
    }
  }

  /** The trend sum of falling positive values is negative. */
  lemma {:induction false} TrendSumFalling(s: seq<int>)
    requires |s| >= 2
    requires forall i, j :: 0 <= i < j < |s| ==> s[i] > s[j]
    requires forall i :: 0 <= i < |s| ==> s[i] > 0
    ensures TrendSum(s) < 0
  {
    if |s| > 2 {
      TrendSumFalling(s[..|s| - 1]);
    }
  }

  /** Strictly rising positive values (at least five) are a right swipe. */
  lemma IncreasingIsRightSwipe(q: seq<int>)
    requires |q| >= 5
    requires forall i, j :: 0 <= i < j < |q| ==> q[i] < q[j]
    requires forall i :: 0 <= i < |q| ==> q[i] > 0
    ensures GestureOf(q) == RightSwipe
  {
    var t := q[1..];
    assert Max(t) == q[|q| - 1] by {
      assert t[|t| - 1] == q[|q| - 1];
    }
    TrendSumRising(q);
  }

  /** Strictly falling positive values (at least five) are a left swipe. */
  lemma DecreasingIsLeftSwipe(q: seq<int>)
    requires |q| >= 5
    requires forall i, j :: 0 <= i < j < |q| ==> q[i] > q[j]
    requires forall i :: 0 <= i < |q| ==> q[i] > 0
    ensures GestureOf(q) == LeftSwipe
  {
    var t := q[1..];
    assert Max(t) == q[1] by {
      assert t[0] == q[1];
    }
    assert Min(t) == q[|q| - 1] by {
      assert t[|t| - 1] == q[|q| - 1];
    }
    TrendSumFalling(q);
  }

  /** A value that rises to a peak after the second value and falls before
      the last is a left bump. */
  lemma PeakIsBumpLeft(q: seq<int>, p: nat)
    requires |q| >= 5 && 2 < p < |q| - 1
    requires forall i, j :: 1 <= i < j <= p ==> q[i] < q[j]
    requires forall i, j :: p <= i < j < |q| ==> q[i] > q[j]
    ensures GestureOf(q) == BumpLeft
  {
    var t := q[1..];
    assert t[p - 1] == q[p];
    assert forall i :: 0 <= i < |t| ==> t[i] == q[i + 1];
    assert Max(t) == q[p];
  }

  /** A value that falls to a valley after the second value and rises again
      before the last is never a left bump: it is a right bump exactly when
      the trend sum stays within the maximum, and a right swipe otherwise. */
  lemma ValleyIsSwipeOrBump(q: seq<int>, p: nat)
    requires |q| >= 5 && 2 < p < |q| - 1
    requires forall i, j :: 1 <= i < j <= p ==> q[i] > q[j]
    requires forall i, j :: p <= i < j < |q| ==> q[i] < q[j]
    ensures GestureOf(q) == RightSwipe || GestureOf(q) == BumpRight
    ensures GestureOf(q) == BumpRight <==> TrendSum(q) <= Max(q[1..])
  {
    ValleyExtremes(q, p);
    assert q[2] > q[p] && q[|q| - 1] > q[p];
    ClassifyValley(q[1], q[2], q[|q| - 1], Max(q[1..]), Min(q[1..]), TrendSum(q));
  }

  /** When the maximum is reached at the first or last probe and the second
      and last probes lie above the minimum, only a right swipe or a right
      bump can come out, and the trend sum decides which. */
  lemma ClassifyValley(firstVal: int, secondVal: int, lastVal: int, xMax: int, xMin: int, sum: int)
    requires xMax <= firstVal || xMax <= lastVal
    requires secondVal > xMin && lastVal > xMin
    ensures var g := Classify(firstVal, secondVal, lastVal, xMax, xMin, sum);
      (g == RightSwipe || g == BumpRight) && (g == BumpRight <==> sum <= xMax)
  {
  }

  /** In a valley the maximum is one of its ends and the minimum is no
      higher than the bottom. */
  lemma ValleyExtremes(q: seq<int>, p: nat)
    requires |q| >= 5 && 2 < p < |q| - 1
    requires forall i, j :: 1 <= i < j <= p ==> q[i] > q[j]
    requires forall i, j :: p <= i < j < |q| ==> q[i] < q[j]
    ensures Max(q[1..]) <= q[1] || Max(q[1..]) <= q[|q| - 1]
    ensures Min(q[1..]) <= q[p]
  {
    var t := q[1..];
    forall i | 0 <= i < |t|
      ensures t[i] <= q[1] || t[i] <= q[|q| - 1]
    {
      assert t[i] == q[i + 1];
      if i + 1 <= p {
        assert i + 1 == 1 || q[1] > q[i + 1];
      } else {
        assert i + 1 == |q| - 1 || q[i + 1] < q[|q| - 1];
      }
    }
    assert t[p - 1] == q[p];
  }

  /** A valley that ends below the first value it is judged by: a right bump. */
  lemma ValleyExample()
    ensures GestureOf([160, 150, 100, 90, 100, 140]) == BumpRight
  {
    var q := [160, 150, 100, 90, 100, 140];
    var t := q[1..];
    assert t[0] == 150 && t[2] == 90;
    assert Max(t) == 150 && Min(t) <= 90;
    assert q[..2] == [160, 150] && q[..2][..1] == [160];
    assert q[..3][..2] == q[..2] && q[..4][..3] == q[..3];
    assert q[..5][..4] == q[..4] && q[..5] == q[..6][..5] && q[..6] == q;
    assert TrendSum(q[..2]) == -150;
    assert TrendSum(q[..3]) == -250;
    assert TrendSum(q[..4]) == -340;
    assert TrendSum(q[..5]) == -240;
    assert TrendSum(q) == -100;
  }

  /** A valley that climbs back to its starting height is not a right bump:
      the rising values push the trend sum past the maximum, a right swipe. */
  lemma ValleyBackToPeakExample()
    ensures GestureOf([150, 150, 120, 100, 120, 150]) == RightSwipe
  {
    var q := [150, 150, 120, 100, 120, 150];
    var t := q[1..];
    assert t[0] == 150;
    assert Max(t) == 150;
    assert q[..2] == [150, 150] && q[..2][..1] == [150];
    assert q[..3][..2] == q[..2] && q[..4][..3] == q[..3];
    assert q[..5][..4] == q[..4] && q[..5] == q[..6][..5] && q[..6] == q;
    assert TrendSum(q[..2]) == 150;
    assert TrendSum(q[..3]) == 30;
    assert TrendSum(q[..4]) == -70;
    assert TrendSum(q[..5]) == 50;
    assert TrendSum(q) == 200;
  }

  /** A motionless reflector (the same positive value throughout) reads as a
      right swipe: every value counts up, so the sum exceeds the maximum. */
  lemma PlateauIsRightSwipe(q: seq<int>)
    requires |q| >= 5
    requires forall i :: 0 <= i < |q| ==> q[i] == q[0]
    requires q[0] > 0
    ensures GestureOf(q) == RightSwipe
  {
    var t := q[1..];
    assert Max(t) == q[0] by {
      assert t[0] == q[0];
    }
    TrendSumRising(q);
  }

  /** A rise and a fall that peaks on the fourth value: a left bump. */
  lemma RiseAndFallExample()
    ensures GestureOf([100, 120, 150, 170, 150, 130]) == BumpLeft
  {
    PeakIsBumpLeft([100, 120, 150, 170, 150, 130], 3);
  }

  /** A peak on the second value is not a bump: the values fall from there on
      and the negative trend sum makes it a left swipe. */
  lemma EarlyPeakExample()
    ensures GestureOf([100, 150, 170, 150, 100, 90]) == LeftSwipe
  {
    var q := [100, 150, 170, 150, 100, 90];
    var t := q[1..];
    assert t[1] == 170 && t[4] == 90;
    assert Max(t) == 170 && Min(t) == 90;
    assert q[..2] == [100, 150] && q[..2][..1] == [100];
    assert q[..3][..2] == q[..2] && q[..4][..3] == q[..3];
    assert q[..5][..4] == q[..4] && q[..5] == q[..6][..5] && q[..6] == q;
    assert TrendSum(q[..2]) == 150;
    assert TrendSum(q[..3]) == 320;
    assert TrendSum(q[..4]) == 170;
    assert TrendSum(q[..5]) == 70;
    assert TrendSum(q) == -20;
  }

  // ---------------------------------------------------------------------------
  // ProcessScroll

  /** Scroll directions passed to the keystroke sender; 0 when no zone is hit. */
  const NoScroll := 0
  const ScrollDown := 1
  const ScrollUp := 2
  const ScrollLeft := 3
  const ScrollRight := 4
  /** What the keystroke sender returns when neither target program is active. */
  const FailedSend := -1
  /** The number of queue reads in one window. */
  const WindowSize := 11

  /** The hit-zone edges. */
  const ZNear := 30
  const ZFar := 70
  const XLeft := 110
  const XRight := 140

  /** The variables of ProcessScroll that live from one iteration to the next. */
  datatype ScrollState = ScrollState(xVal: int, zVal: int, flag: nat, returnVal: int)

  /** One read of the window: a negative value is a z value (stored as its
      size), a positive value is an x value and bumps the flag, 0 changes nothing. */
  function Absorb(st: ScrollState, v: int): ScrollState
  {
    if v < 0 then st.(zVal := -v)
    else if v > 0 then st.(xVal := v, flag := st.flag + 1)
    else st
  }

  /** The state after reading the values `w` in order. */
  function Window(st: ScrollState, w: seq<int>): ScrollState
  {
    if w == [] then st else Absorb(Window(st, w[..|w| - 1]), w[|w| - 1])
  }

  predicate InDown(x: int, z: int) { z <= ZNear && XLeft < x < XRight }
  predicate InUp(x: int, z: int) { z >= ZFar && XLeft < x < XRight }
  predicate InLeft(x: int, z: int) { x <= XLeft && ZNear < z < ZFar }
  predicate InRight(x: int, z: int) { x >= XRight && ZNear < z < ZFar }

  /** The direction chosen for (x, z): the four zones do not overlap, so each
      direction is chosen exactly when its zone is hit; left and right also
      need a flag other than 3. */
  function Zone(x: int, z: int, flag: int): (d: int)
    ensures d == ScrollDown <==> InDown(x, z)
    ensures d == ScrollUp <==> InUp(x, z)
    ensures d == ScrollLeft <==> flag != 3 && InLeft(x, z)
    ensures d == ScrollRight <==> flag != 3 && InRight(x, z)
    ensures d == NoScroll <==>
      !InDown(x, z) && !InUp(x, z) && !(flag != 3 && (InLeft(x, z) || InRight(x, z)))
  {
    if InDown(x, z) then ScrollDown
    else if InUp(x, z) then ScrollUp
    else if flag != 3 && InLeft(x, z) then ScrollLeft
    else if flag != 3 && InRight(x, z) then ScrollRight
    else NoScroll
  }

  /** Points in each zone; left and right are refused exactly when the flag is 3. */
  lemma ZoneExamples()
    ensures Zone(125, 20, 0) == ScrollDown && Zone(125, 80, 0) == ScrollUp
    ensures Zone(90, 50, 1) == ScrollLeft && Zone(90, 50, 3) == NoScroll && Zone(90, 50, 4) == ScrollLeft
    ensures Zone(150, 50, 2) == ScrollRight && Zone(150, 50, 3) == NoScroll
  {
  }

  /** The outcome of one iteration: the carried state, the direction sent
      (0 if none) and the queue left behind. */
  datatype ScrollOutcome = ScrollOutcome(state: ScrollState, direction: int, rest: seq<int>)

  /** One iteration of ProcessScroll on the queue `q`, where `sent` is what
      the keystroke sender returns if it is called. An iteration starts only
      once the queue holds a value. */
  function ScrollStep(st: ScrollState, q: seq<int>, sent: int): (r: ScrollOutcome)
    requires q != []
    requires sent == FailedSend || sent == 1
    ensures r.state.flag < 3
    ensures |r.rest| <= |q| - (if |q| < WindowSize then |q| else WindowSize)
    ensures r.rest == [] || r.rest == q[|q| - |r.rest|..]
  {
    var k := if |q| < WindowSize then |q| else WindowSize;
    var w := Window(st, q[..k]);
    var d := Zone(w.xVal, w.zVal, w.flag);
    var rv := if d != NoScroll then sent else st.returnVal;
    var flag := if w.flag >= 3 then 0 else w.flag;
    if rv == FailedSend || |q| - k > OverflowLimit then
      ScrollOutcome(ScrollState(w.xVal, w.zVal, flag, rv), d, [])
    else
      ScrollOutcome(ScrollState(w.xVal, w.zVal, flag, 0), d, q[k..])
  }

  /** One iteration of ProcessScroll's loop: reads a window of up to 11
      values, sends the direction of the zone hit (if any), resets the flag
      after three x values, and empties the queue after a failed send or when
      more than 300 values remain. */
  method ProcessScrollStep(newQueue: Queue, st: ScrollState, sent: int) returns (next: ScrollState, direction: int)
    requires newQueue.items != []
    requires sent == FailedSend || sent == 1
    modifies newQueue
    ensures ScrollOutcome(next, direction, newQueue.items) == ScrollStep(st, old(newQueue.items), sent)
  {
    ghost var q0 := newQueue.items;
    var xVal, zVal, flag, returnVal := st.xVal, st.zVal, st.flag, st.returnVal;
    var count := 0;
    var readVal := 0;
    while count < WindowSize
      invariant 0 <= count <= WindowSize
      invariant count <= |q0| ==> newQueue.items == q0[count..]
      invariant count <= |q0| ==> ScrollState(xVal, zVal, flag, returnVal) == Window(st, q0[..count])
      invariant count > |q0| ==> newQueue.items == [] && ScrollState(xVal, zVal, flag, returnVal) == Window(st, q0)
    {
      if newQueue.Count() != 0 {
        assert q0[..count + 1][..count] == q0[..count];
        readVal := newQueue.Dequeue();
        if readVal < 0 {
          readVal := readVal * -1;
          zVal := readVal;
        } else if readVal > 0 {
          xVal := readVal;
          flag := flag + 1;
        }
      } else if count <= |q0| {
        assert q0[..count] == q0;
      }
      count := count + 1;
    }
    assert |q0| >= WindowSize ==> q0[..WindowSize] == q0[..count];
    assert |q0| < WindowSize ==> q0[..|q0|] == q0;
    direction := Zone(xVal, zVal, flag);
    if direction != NoScroll {
      returnVal := sent;
    }
    if flag >= 3 {
      flag := 0;
    }
    if returnVal == FailedSend || newQueue.Count() > OverflowLimit {
      newQueue.Clear();
    } else {
      returnVal := 0;
    }
    next := ScrollState(xVal, zVal, flag, returnVal);
  }

  /** The number of positive values in `w`. */
  function CountPositive(w: seq<int>): (n: nat)
    ensures n <= |w|
  {
    if w == [] then 0 else (if w[0] > 0 then 1 else 0) + CountPositive(w[1..])
  }

  /** A window adds one to the flag per x value it reads and keeps the carried send result. */
  lemma {:induction false} WindowFlag(st: ScrollState, w: seq<int>)
    ensures Window(st, w).flag == st.flag + CountPositive(w)
    ensures Window(st, w).returnVal == st.returnVal
  {
    if w != [] {
      var w' := w[..|w| - 1];
      WindowFlag(st, w');
      CountPositiveSnoc(w', w[|w| - 1]);
      assert w' + [w[|w| - 1]] == w;
    }
  }

  /** Counting positives over a sequence extended at the back. */
  lemma {:induction false} CountPositiveSnoc(w: seq<int>, v: int)
    ensures CountPositive(w + [v]) == CountPositive(w) + (if v > 0 then 1 else 0)
  {
    if w != [] {
      assert (w + [v])[1..] == w[1..] + [v];
      CountPositiveSnoc(w[1..], v);
    }
  }

  /** After a window, xVal is the last positive value read (the one at `i`),
      or unchanged when none was read (`i` = -1). */
  lemma {:induction false} WindowLastX(st: ScrollState, w: seq<int>, i: int)
    requires -1 <= i < |w| && (i >= 0 ==> w[i] > 0)
    requires forall j :: i < j < |w| ==> w[j] <= 0
    ensures Window(st, w).xVal == if i < 0 then st.xVal else w[i]
  {
    if w != [] && i < |w| - 1 {
      var w' := w[..|w| - 1];
      assert forall j :: i < j < |w'| ==> w'[j] == w[j];
      WindowLastX(st, w', i);
      assert i >= 0 ==> w'[i] == w[i];
    }
  }

  /** After a window, zVal is the size of the last negative value read (the
      one at `i`), or unchanged when none was read (`i` = -1). */
  lemma {:induction false} WindowLastZ(st: ScrollState, w: seq<int>, i: int)
    requires -1 <= i < |w| && (i >= 0 ==> w[i] < 0)
    requires forall j :: i < j < |w| ==> w[j] >= 0
    ensures Window(st, w).zVal == if i < 0 then st.zVal else -w[i]
  {
    if w != [] && i < |w| - 1 {
      var w' := w[..|w| - 1];
      assert forall j :: i < j < |w'| ==> w'[j] == w[j];
      WindowLastZ(st, w', i);
      assert i >= 0 ==> w'[i] == w[i];
    }
  }

  /** A failed send empties the queue, and the failure is carried on. */
  lemma FailedSendClears(st: ScrollState, q: seq<int>)
    requires q != []
    ensures var r := ScrollStep(st, q, FailedSend);
      r.direction != NoScroll ==> r.rest == [] && r.state.returnVal == FailedSend
  {
  }

  /** A failure carried from an earlier iteration empties the queue again on
      every iteration that hits no zone, and stays carried. */
  lemma FailedSendPersists(st: ScrollState, q: seq<int>, sent: int)
    requires q != []
    requires sent == FailedSend || sent == 1
    requires st.returnVal == FailedSend
    ensures var r := ScrollStep(st, q, sent);
      r.direction == NoScroll ==> r.rest == [] && r.state.returnVal == FailedSend
  {
  }

  /** More than 311 queued values: the backlog check empties the queue whatever is sent. */
  lemma BacklogClears(st: ScrollState, q: seq<int>, sent: int)
    requires sent == FailedSend || sent == 1
    requires |q| > WindowSize + OverflowLimit
    ensures ScrollStep(st, q, sent).rest == []
  {
  }

  /** With no failure to report and no backlog, the queue keeps everything
      after the window and the send result is reset. */
  lemma ScrollKeepsRest(st: ScrollState, q: seq<int>)
    requires 0 < |q| <= WindowSize + OverflowLimit
    requires st.returnVal != FailedSend
    ensures var k := if |q| < WindowSize then |q| else WindowSize;
      ScrollStep(st, q, 1).rest == q[k..] && ScrollStep(st, q, 1).state.returnVal == 0
  {
  }
}
