/** The keyframe logic of goo's timeline pack: channels whose keyframes are
    kept ordered by time, the bisection that finds the keyframe before a
    time, the value a channel samples at a time, the cursor that fires event
    callbacks, the component that advances its time and the system that
    plays, pauses and stops every timeline. */
module Timeline {

  /** A keyframe: an identifier, a time and what its channel attaches to it. */
  datatype Keyframe<P> = Keyframe(id: string, time: real, data: P)

  /** What a ValueChannel keyframe carries: the value and the name of the
      easing function applied on the way to the next keyframe. */
  datatype Tween = Tween(value: real, easing: string)

  /** What an EventChannel keyframe carries: its callback, by handle. */
  datatype Callback = Callback(handle: nat)

  predicate Sorted<P>(ks: seq<Keyframe<P>>) {
    forall i, j :: 0 <= i < j < |ks| ==> ks[i].time <= ks[j].time
  }

  /** lastTime is at or after every keyframe. */
  predicate Bounded<P>(ks: seq<Keyframe<P>>, lastTime: real) {
    forall i :: 0 <= i < |ks| ==> ks[i].time <= lastTime
  }

  function MaxTime(a: real, b: real): real { if b > a then b else a }

  // ---------------------------------------------------------------------
  // AbstractTimelineChannel._find

  /** The bisection loop of _find between lo and hi: while the two are more
      than one index apart, the midpoint replaces lo when t lies after its
      time and hi otherwise; the answer is lo. */
  function Bisect<P>(ks: seq<Keyframe<P>>, t: real, lo: nat, hi: nat): (r: nat)
    requires lo <= hi < |ks|
    requires (lo == 0 || ks[lo].time < t) && t <= ks[hi].time
    ensures lo <= r <= hi && (r == 0 || ks[r].time < t)
    ensures lo < hi ==> r < hi && t <= ks[r + 1].time
    decreases hi - lo
  {
    if hi - lo > 1 then
      var mid := (hi + lo) / 2;
      if t > ks[mid].time then Bisect(ks, t, mid, hi) else Bisect(ks, t, lo, mid)
    else lo
  }

  /** _find(keyframes, t): the last index when t is after the last keyframe;
      otherwise an index whose keyframe is before t (or 0) and whose
      successor is not. */
  function FindIndex<P>(ks: seq<Keyframe<P>>, t: real): (r: nat)
    requires |ks| > 0
    ensures r < |ks|
    ensures t > ks[|ks| - 1].time ==> r == |ks| - 1
    ensures t <= ks[|ks| - 1].time ==> (r == 0 || ks[r].time < t)
    ensures t <= ks[|ks| - 1].time && |ks| > 1 ==> r + 1 < |ks| && t <= ks[r + 1].time
  {
    if t > ks[|ks| - 1].time then |ks| - 1 else Bisect(ks, t, 0, |ks| - 1)
  }

  /** On keyframes ordered by time, _find gives the last keyframe before t:
      every keyframe after index 0 up to the result is before t, and every
      one after the result is not. */
  lemma FindIsLastBefore<P>(ks: seq<Keyframe<P>>, t: real)
    requires |ks| > 0 && Sorted(ks)
    ensures var r := FindIndex(ks, t);
      (forall j :: 0 < j <= r ==> ks[j].time < t) && (forall j :: r < j < |ks| ==> t <= ks[j].time)
  {
    var r := FindIndex(ks, t);
    if t <= ks[|ks| - 1].time && r + 1 < |ks| {
      assert forall j :: r < j < |ks| ==> ks[r + 1].time <= ks[j].time;
    }
  }

  /** _find as the source runs it: a loop narrowing [lo, hi]. */
  method Find<P>(ks: seq<Keyframe<P>>, t: real) returns (r: nat)
    requires |ks| > 0
    ensures r == FindIndex(ks, t)
  {
    var lo, hi := 0, |ks| - 1;
    if t > ks[hi].time {
      return hi;
    }
    while hi - lo > 1
      invariant lo <= hi < |ks| && (lo == 0 || ks[lo].time < t) && t <= ks[hi].time
      invariant Bisect(ks, t, lo, hi) == Bisect(ks, t, 0, |ks| - 1)
      decreases hi - lo
    {
      var mid := (hi + lo) / 2;
      if t > ks[mid].time {
        lo := mid;
      } else {
        hi := mid;
      }
    }
    return lo;
  }

  // ---------------------------------------------------------------------
  // ValueChannel.addKeyframe / EventChannel.addCallback

  /** Where addKeyframe and addCallback put a keyframe at time t: at the end
      when t is after lastTime, at the front when the list is empty or t is
      before the first keyframe, else just after _find's index. */
  function InsertPosition<P>(ks: seq<Keyframe<P>>, lastTime: real, t: real): (p: nat)
    ensures p <= |ks|
  {
    if t > lastTime then |ks|
    else if |ks| == 0 || t < ks[0].time then 0
    else FindIndex(ks, t) + 1
  }

  function Insert<P>(ks: seq<Keyframe<P>>, p: nat, k: Keyframe<P>): seq<Keyframe<P>>
    requires p <= |ks|
  {
    ks[..p] + [k] + ks[p..]
  }

  /** The position fits between its neighbours: the keyframe before it is
      not after t and the one after it not before t. */
  lemma PositionFits<P>(ks: seq<Keyframe<P>>, lastTime: real, t: real)
    requires Sorted(ks) && Bounded(ks, lastTime)
    ensures var p := InsertPosition(ks, lastTime, t);
      (p == 0 || ks[p - 1].time <= t) && (p == |ks| || t <= ks[p].time)
  {
    var p := InsertPosition(ks, lastTime, t);
    if t <= lastTime && |ks| > 0 && t >= ks[0].time {
      FindIsLastBefore(ks, t);
    }
  }

  /** A keyframe inserted between neighbours it fits keeps the order. */
  lemma InsertSorted<P>(ks: seq<Keyframe<P>>, p: nat, k: Keyframe<P>)
    requires Sorted(ks) && p <= |ks|
    requires (p == 0 || ks[p - 1].time <= k.time) && (p == |ks| || k.time <= ks[p].time)
    ensures Sorted(Insert(ks, p, k))
  {
    var ks' := Insert(ks, p, k);
    assert forall i :: 0 <= i < |ks'| ==> ks'[i] == if i < p then ks[i] else if i == p then k else ks[i - 1];
    forall i, j | 0 <= i < j < |ks'|
      ensures ks'[i].time <= ks'[j].time
    {
      if i < p && p < j {
        assert ks[i].time <= ks[p - 1].time;
      } else if i < p && j == p {
        assert ks[i].time <= ks[p - 1].time;
      } else if i == p && j > p {
        assert ks[p].time <= ks[j - 1].time;
      }
    }
  }

  /** What an insertion holds: the old keyframes around the new one. */
  lemma InsertContents<P>(ks: seq<Keyframe<P>>, p: nat, k: Keyframe<P>)
    requires p <= |ks|
    ensures var ks' := Insert(ks, p, k);
      |ks'| == |ks| + 1 && multiset(ks') == multiset(ks) + multiset{k} &&
      forall i :: 0 <= i < |ks'| ==> ks'[i] == if i < p then ks[i] else if i == p then k else ks[i - 1]
  {
    InsertMultiset(ks, p, k);
    InsertIndices(ks, p, k);
  }

  lemma InsertMultiset<P>(ks: seq<Keyframe<P>>, p: nat, k: Keyframe<P>)
    requires p <= |ks|
    ensures multiset(Insert(ks, p, k)) == multiset(ks) + multiset{k}
  {
    var front, back := ks[..p], ks[p..];
    assert ks == front + back;
    assert Insert(ks, p, k) == (front + [k]) + back;
  }

  lemma InsertIndices<P>(ks: seq<Keyframe<P>>, p: nat, k: Keyframe<P>)
    requires p <= |ks|
    ensures var ks' := Insert(ks, p, k);
      |ks'| == |ks| + 1 && forall i :: 0 <= i < |ks'| ==> ks'[i] == if i < p then ks[i] else if i == p then k else ks[i - 1]
  {
  }

  /** A keyframe no later than a bound of the list keeps it bounded. */
  lemma InsertBounded<P>(ks: seq<Keyframe<P>>, p: nat, k: Keyframe<P>, bound: real)
    requires p <= |ks| && Bounded(ks, bound) && k.time <= bound
    ensures Bounded(Insert(ks, p, k), bound)
  {
    InsertContents(ks, p, k);
    var ks' := Insert(ks, p, k);
    forall i | 0 <= i < |ks'|
      ensures ks'[i].time <= bound
    {
      if i < p {
        assert ks'[i] == ks[i];
      } else if i > p {
        assert ks'[i] == ks[i - 1];
      }
    }
  }

  /** The insertion keeps the keyframes ordered and lastTime at or after
      every keyframe; the new keyframe sits at its position and nothing
      else is lost. */
  lemma InsertKeepsOrder<P>(ks: seq<Keyframe<P>>, lastTime: real, k: Keyframe<P>)
    requires Sorted(ks) && Bounded(ks, lastTime)
    ensures var p := InsertPosition(ks, lastTime, k.time);
      var ks' := Insert(ks, p, k);
      |ks'| == |ks| + 1 && ks'[p] == k && multiset(ks') == multiset(ks) + multiset{k} &&
      Sorted(ks') && Bounded(ks', MaxTime(lastTime, k.time))
  {
    var p := InsertPosition(ks, lastTime, k.time);
    PositionFits(ks, lastTime, k.time);
    InsertSorted(ks, p, k);
    InsertContents(ks, p, k);
    var m := MaxTime(lastTime, k.time);
    assert Bounded(ks, m);
    InsertBounded(ks, p, k, m);
  }

  /** The body shared by addKeyframe and addCallback: push, unshift or
      splice after _find's index. */
  method AddSorted<P(==)>(ks: seq<Keyframe<P>>, lastTime: real, k: Keyframe<P>)
    returns (ks': seq<Keyframe<P>>, lastTime': real)
    ensures ks' == Insert(ks, InsertPosition(ks, lastTime, k.time), k)
    ensures lastTime' == MaxTime(lastTime, k.time)
    ensures Sorted(ks) && Bounded(ks, lastTime) ==> Sorted(ks') && Bounded(ks', lastTime')
  {
    if k.time > lastTime {
      ks', lastTime' := ks + [k], k.time;
      assert ks[..|ks|] == ks;
    } else if |ks| == 0 || k.time < ks[0].time {
      ks', lastTime' := [k] + ks, lastTime;
      assert ks[0..] == ks;
    } else {
      var n := Find(ks, k.time);
      ks', lastTime' := ks[..n + 1] + [k] + ks[n + 1..], lastTime;
    }
    if Sorted(ks) && Bounded(ks, lastTime) {
      InsertKeepsOrder(ks, lastTime, k);
    }
  }

  // ---------------------------------------------------------------------
  // AbstractTimelineChannel.sort

  /** k placed before the first keyframe that is not before it. */
  function InsertByTime<P(==)>(k: Keyframe<P>, ks: seq<Keyframe<P>>): (r: seq<Keyframe<P>>)
    ensures |r| == |ks| + 1 && multiset(r) == multiset(ks) + multiset{k}
  {
    if |ks| == 0 || k.time <= ks[0].time then [k] + ks
    else
      assert ks == [ks[0]] + ks[1..];
      [ks[0]] + InsertByTime(k, ks[1..])
  }

  /** Inserting into an ordered list keeps it ordered. */
  lemma {:induction false} InsertByTimeSorted<P>(k: Keyframe<P>, ks: seq<Keyframe<P>>)
    requires Sorted(ks)
    ensures Sorted(InsertByTime(k, ks))
    ensures InsertByTime(k, ks)[0] == k || InsertByTime(k, ks)[0] == ks[0]
  {
    if |ks| == 0 || k.time <= ks[0].time {
      SortedCons(k, ks);
    } else {
      var rest := InsertByTime(k, ks[1..]);
      assert Sorted(ks[1..]);
      InsertByTimeSorted(k, ks[1..]);
      assert |ks| > 1 ==> ks[0].time <= ks[1].time;
      SortedCons(ks[0], rest);
    }
  }

  /** keyframes.sort by time, as an insertion sort. */
  function SortByTime<P(==)>(ks: seq<Keyframe<P>>): (r: seq<Keyframe<P>>)
    ensures Sorted(r) && multiset(r) == multiset(ks) && |r| == |ks|
  {
    if |ks| == 0 then []
    else
      assert ks == [ks[0]] + ks[1..];
      var rest := SortByTime(ks[1..]);
      InsertByTimeSorted(ks[0], rest);
      InsertByTime(ks[0], rest)
  }

  /** A keyframe not after the head of an ordered list can go in front. */
  lemma SortedCons<P>(h: Keyframe<P>, rest: seq<Keyframe<P>>)
    requires Sorted(rest) && (|rest| == 0 || h.time <= rest[0].time)
    ensures Sorted([h] + rest)
  {
    var r := [h] + rest;
    forall i, j | 0 <= i < j < |r|
      ensures r[i].time <= r[j].time
    {
      if i == 0 && j > 1 {
        assert rest[0].time <= rest[j - 1].time;
      }
    }
  }

  /** After a sort, lastTime taken from the last keyframe bounds them all. */
  lemma SortedLastBounds<P>(ks: seq<Keyframe<P>>)
    requires |ks| > 0 && Sorted(ks)
    ensures Bounded(ks, ks[|ks| - 1].time)
  {
  }

  // ---------------------------------------------------------------------
  // ValueChannel.update

  /** MathUtils.lerp(factor, start, end). */
  function Lerp(f: real, a: real, b: real): real { a + (b - a) * f }

  /** Which keyframes a sample came from: clamped to the first or last, or
      between keyframe index and the next (the index passed to the
      update callback, undefined when clamped). */
  datatype Segment = Clamped | Between(index: nat)

  datatype Sample = Sample(value: real, segment: Segment)

  /** The value of ValueChannel.update at time t: the first keyframe's value
      up to its time, the last one's from its time, and in between the
      eased interpolation from the keyframe _find gives to the next. */
  function SampleAt(ks: seq<Keyframe<Tween>>, t: real, ease: (string, real) -> real): (s: Sample)
    requires |ks| > 0
    ensures s.segment.Between? ==>
      s.segment.index + 1 < |ks| && ks[s.segment.index].time < t <= ks[s.segment.index + 1].time
  {
    var last := ks[|ks| - 1];
    if t <= ks[0].time then Sample(ks[0].data.value, Clamped)
    else if t >= last.time then Sample(last.data.value, Clamped)
    else
      var i := FindIndex(ks, t);
      var a, b := ks[i], ks[i + 1];
      Sample(Lerp(ease(a.data.easing, (t - a.time) / (b.time - a.time)), a.data.value, b.data.value), Between(i))
  }

  predicate StrictlyIncreasing<P>(ks: seq<Keyframe<P>>) {
    forall i, j :: 0 <= i < j < |ks| ==> ks[i].time < ks[j].time
  }

  /** With distinct keyframe times and easings that end at 1, the channel
      passes through every keyframe's value at that keyframe's time. */
  lemma SampleHitsKeyframes(ks: seq<Keyframe<Tween>>, k: nat, ease: (string, real) -> real)
    requires k < |ks| && StrictlyIncreasing(ks)
    requires forall e :: ease(e, 1.0) == 1.0
    ensures SampleAt(ks, ks[k].time, ease).value == ks[k].data.value
  {
    var t := ks[k].time;
    if 0 < k < |ks| - 1 {
      assert Sorted(ks);
      FindIsLastBefore(ks, t);
      var i := FindIndex(ks, t);
      assert i == k - 1;
      DivSelf(t - ks[i].time);
    }
  }

  /** With easings that keep [0, 1] in [0, 1], an interpolated sample lies
      between the values of the two keyframes it came from. */
  lemma SampleBetweenNeighbours(ks: seq<Keyframe<Tween>>, t: real, ease: (string, real) -> real)
    requires |ks| > 0
    requires forall e, x :: 0.0 <= x <= 1.0 ==> 0.0 <= ease(e, x) <= 1.0
    ensures var s := SampleAt(ks, t, ease);
      s.segment.Between? ==>
        var a, b := ks[s.segment.index].data.value, ks[s.segment.index + 1].data.value;
        (a <= s.value <= b) || (b <= s.value <= a)
  {
    var s := SampleAt(ks, t, ease);
    if s.segment.Between? {
      var i := s.segment.index;
      var ta, tb := ks[i].time, ks[i + 1].time;
      RatioInUnitInterval(t - ta, tb - ta);
      var f := ease(ks[i].data.easing, (t - ta) / (tb - ta));
      LerpBetween(f, ks[i].data.value, ks[i + 1].data.value);
    }
  }

  lemma DivSelf(x: real)
    requires x != 0.0
    ensures x / x == 1.0
  {
  }

  lemma RatioInUnitInterval(u: real, v: real)
    requires 0.0 < u <= v
    ensures 0.0 < u / v <= 1.0
  {
  }

  lemma LerpBetween(f: real, a: real, b: real)
    requires 0.0 <= f <= 1.0
    ensures (a <= Lerp(f, a, b) <= b) || (b <= Lerp(f, a, b) <= a)
  {
    var d := b - a;
    assert Lerp(f, a, b) == a + d * f;
    if d >= 0.0 {
      ScaleDown(d, f);
    } else {
      ScaleDown(-d, f);
      NegMul(d, f);
    }
  }

  lemma NegMul(d: real, f: real)
    ensures (-d) * f == -(d * f)
  {
  }

  lemma ScaleDown(c: real, f: real)
    requires c >= 0.0 && 0.0 <= f <= 1.0
    ensures 0.0 <= c * f <= c
  {
    assert c - c * f == c * (1.0 - f);
    assert c * (1.0 - f) >= 0.0;
  }

  // ---------------------------------------------------------------------
  // EventChannel.update / setTime

  /** The indices a up to b, in order. */
  function Range(a: nat, b: nat): (r: seq<nat>)
    requires a <= b
    ensures |r| == b - a && forall i :: 0 <= i < |r| ==> r[i] == a + i
  {
    seq(b - a, i requires 0 <= i < b - a => a + i)
  }

  /** The second loop of EventChannel.update from cursor c: it passes every
      keyframe before t until the first that is not. */
  function Advance<P>(ks: seq<Keyframe<P>>, c: nat, t: real): (r: nat)
    requires c <= |ks|
    ensures c <= r <= |ks|
    ensures forall j :: c <= j < r ==> ks[j].time < t
    ensures r < |ks| ==> t <= ks[r].time
    decreases |ks| - c
  {
    if c == |ks| || t <= ks[c].time then c else Advance(ks, c + 1, t)
  }

  lemma RangeStep(a: nat, b: nat)
    requires a <= b
    ensures Range(a, b) + [b] == Range(a, b + 1)
  {
  }

  /** Where the second loop of update starts: at 0 after a jump back. */
  function Restart(cursor: nat, oldTime: real, t: real): nat {
    if t < oldTime then 0 else cursor
  }

  /** The callbacks EventChannel.update fires, by keyframe index: after a
      jump back in time every one left from the cursor on, then those the
      cursor passes. */
  function FiredBy<P>(ks: seq<Keyframe<P>>, cursor: nat, oldTime: real, t: real): seq<nat>
    requires cursor <= |ks|
  {
    var start := Restart(cursor, oldTime, t);
    (if t < oldTime then Range(cursor, |ks|) else []) + Range(start, Advance(ks, start, t))
  }

  /** On ordered keyframes a cursor left by an update at time t0 stands at
      the first keyframe not before t0; an update forward to t fires exactly
      the keyframes from t0 up to before t, in order. */
  lemma {:induction false} ForwardFiresWindow<P>(ks: seq<Keyframe<P>>, t0: real, t: real)
    requires Sorted(ks) && t0 <= t
    ensures var c := Advance(ks, 0, t0);
      Advance(ks, c, t) == Advance(ks, 0, t) &&
      FiredBy(ks, c, t0, t) == Range(c, Advance(ks, 0, t)) &&
      forall i :: c <= i < Advance(ks, 0, t) ==> t0 <= ks[i].time < t
  {
    var c := Advance(ks, 0, t0);
    AdvanceFrom(ks, 0, c, t);
  }

  /** Advancing from 0 passes any cursor whose earlier keyframes are all
      before t. */
  lemma {:induction false} AdvanceFrom<P>(ks: seq<Keyframe<P>>, c: nat, d: nat, t: real)
    requires c <= d <= |ks| && forall j :: c <= j < d ==> ks[j].time < t
    ensures Advance(ks, c, t) == Advance(ks, d, t)
    decreases d - c
  {
    if c < d {
      AdvanceFrom(ks, c + 1, d, t);
    }
  }

  /** The cursor EventChannel.setTime sets: 0 up to the first keyframe,
      else one past _find's index. */
  function SetTimeCursor<P>(ks: seq<Keyframe<P>>, t: real): (c: nat)
    requires |ks| > 0
    ensures c <= |ks|
  {
    if t <= ks[0].time then 0 else FindIndex(ks, t) + 1
  }

  /** On ordered keyframes setTime leaves the cursor where playing from the
      start up to t would: at the first keyframe not before t. */
  lemma SetTimeAgreesWithUpdate<P>(ks: seq<Keyframe<P>>, t: real)
    requires |ks| > 0 && Sorted(ks)
    ensures SetTimeCursor(ks, t) == Advance(ks, 0, t)
  {
    var c := SetTimeCursor(ks, t);
    if t > ks[0].time {
      FindIsLastBefore(ks, t);
      assert forall j :: 0 <= j < c ==> ks[j].time < t;
    }
    AdvanceFrom(ks, 0, c, t);
  }

  // ---------------------------------------------------------------------
  // The two channel classes

  /** What a channel's update reports to the outside: nothing, the call of
      its update callback, or the keyframe callbacks fired in order. */
  datatype Outcome = Silent | Notified(time: real, value: real, segment: Segment) | Fired(indices: seq<nat>)

  /** The fields of a ValueChannel that update reads or writes. */
  datatype ValueState = ValueState(enabled: bool, keyframes: seq<Keyframe<Tween>>, value: real)

  /** The fields of an EventChannel that update and setTime read or write. */
  datatype EventState = EventState(enabled: bool, keyframes: seq<Keyframe<Callback>>, oldTime: real, callbackIndex: nat)

  /** ValueChannel.update(t) on a state: a disabled or empty channel keeps
      its value and reports nothing; otherwise the value sampled at t is
      stored and passed to the update callback, the first keyframe's value
      up to its time and the last keyframe's value from its time. */
  function UpdateValue(s: ValueState, t: real, ease: (string, real) -> real): (r: (ValueState, Outcome))
    ensures r.0.enabled == s.enabled && r.0.keyframes == s.keyframes
    ensures !s.enabled || |s.keyframes| == 0 ==> r == (s, Silent)
    ensures s.enabled && |s.keyframes| > 0 ==> r.1.Notified? && r.1.time == t && r.1.value == r.0.value
    ensures s.enabled && |s.keyframes| > 0 && t <= s.keyframes[0].time ==>
      r.0.value == s.keyframes[0].data.value && r.1.segment == Clamped
    ensures s.enabled && |s.keyframes| > 0 && t > s.keyframes[0].time && t >= s.keyframes[|s.keyframes| - 1].time ==>
      r.0.value == s.keyframes[|s.keyframes| - 1].data.value && r.1.segment == Clamped
  {
    if !s.enabled || |s.keyframes| == 0 then (s, Silent)
    else
      var x := SampleAt(s.keyframes, t, ease);
      (s.(value := x.value), Notified(t, x.value, x.segment))
  }

  /** EventChannel.update(t) on a state: a disabled or empty channel is
      left alone; otherwise the callbacks FiredBy gives are fired, the
      cursor stops at the first keyframe not before t and oldTime is t. */
  function UpdateEvent(s: EventState, t: real): (r: (EventState, Outcome))
    requires s.callbackIndex <= |s.keyframes|
    ensures r.0.callbackIndex <= |r.0.keyframes| && r.0.keyframes == s.keyframes && r.0.enabled == s.enabled
  {
    if !s.enabled || |s.keyframes| == 0 then (s, Silent)
    else
      var cursor := Advance(s.keyframes, Restart(s.callbackIndex, s.oldTime, t), t);
      (s.(oldTime := t, callbackIndex := cursor), Fired(FiredBy(s.keyframes, s.callbackIndex, s.oldTime, t)))
  }

  /** EventChannel.setTime(t) on a state: nothing fires; an enabled channel
      with keyframes has its cursor placed for t and oldTime set to t. */
  function PlaceEvent(s: EventState, t: real): (r: (EventState, Outcome))
    requires s.callbackIndex <= |s.keyframes|
    ensures r.0.callbackIndex <= |r.0.keyframes| && r.0.keyframes == s.keyframes && r.0.enabled == s.enabled
  {
    if !s.enabled || |s.keyframes| == 0 then (s, Silent)
    else (s.(oldTime := t, callbackIndex := SetTimeCursor(s.keyframes, t)), Silent)
  }

  /** What an update of an enabled channel with keyframes does to the
      cursor: it ends within the keyframes with oldTime at t; going forward
      it fires, in index order, the keyframes from the cursor that are
      before t; after a jump back it fires every keyframe from the cursor
      on and then, from index 0, those before t. */
  lemma UpdateFiresInOrder(s: EventState, t: real)
    requires s.callbackIndex <= |s.keyframes| && s.enabled && |s.keyframes| > 0
    ensures var (s', o) := UpdateEvent(s, t);
      s'.callbackIndex <= |s.keyframes| && s'.oldTime == t && o.Fired? &&
      (forall i :: 0 <= i < |o.indices| ==> o.indices[i] < |s.keyframes|) &&
      (forall i, j :: 0 <= i < j < |o.indices| && t >= s.oldTime ==> o.indices[i] < o.indices[j]) &&
      (t >= s.oldTime ==> forall i :: 0 <= i < |o.indices| ==>
         s.callbackIndex <= o.indices[i] && s.keyframes[o.indices[i]].time < t) &&
      (t < s.oldTime ==>
         s'.callbackIndex == Advance(s.keyframes, 0, t) &&
         o.indices == Range(s.callbackIndex, |s.keyframes|) + Range(0, s'.callbackIndex))
  {
  }

  /** The value computation of ValueChannel.update: clamped at either
      end, else eased between the keyframe _find gives and the next. */
  method Interpolate(ks: seq<Keyframe<Tween>>, t: real, ease: (string, real) -> real) returns (x: Sample)
    requires |ks| > 0
    ensures x == SampleAt(ks, t, ease)
  {
    if t <= ks[0].time {
      return Sample(ks[0].data.value, Clamped);
    } else if t >= ks[|ks| - 1].time {
      return Sample(ks[|ks| - 1].data.value, Clamped);
    }
    var i := Find(ks, t);
    var r, next := ks[i], ks[i + 1];
    var ratio := (t - r.time) / (next.time - r.time);
    x := Sample(Lerp(ease(r.data.easing, ratio), r.data.value, next.data.value), Between(i));
  }

  /** The two loops of EventChannel.update: after a jump back every
      callback from the cursor on, then from the restart point those
      before t. */
  method Fire(ks: seq<Keyframe<Callback>>, cursor: nat, previous: real, t: real) returns (index: nat, fired: seq<nat>)
    requires cursor <= |ks|
    ensures index == Advance(ks, Restart(cursor, previous, t), t)
    ensures fired == FiredBy(ks, cursor, previous, t)
  {
    index, fired := cursor, [];
    if t < previous {
      while index < |ks|
        invariant cursor <= index <= |ks|
        invariant fired == Range(cursor, index)
      {
        RangeStep(cursor, index);
        fired := fired + [index];
        index := index + 1;
      }
      index := 0;
    }
    ghost var start, before := index, fired;
    while index < |ks| && t > ks[index].time
      invariant start <= index <= |ks|
      invariant Advance(ks, index, t) == Advance(ks, start, t)
      invariant fired == before + Range(start, index)
      decreases |ks| - index
    {
      RangeStep(start, index);
      fired := fired + [index];
      index := index + 1;
    }
    assert Advance(ks, index, t) == index;
  }

  class ValueChannel {
    const id: string
    var enabled: bool
    var keyframes: seq<Keyframe<Tween>>
    var lastTime: real
    var value: real

    function State(): ValueState
      reads this
    {
      ValueState(enabled, keyframes, value)
    }

    /** new ValueChannel(id): enabled, no keyframes, value 0. */
    constructor (id: string)
      ensures this.id == id && enabled && keyframes == [] && lastTime == 0.0 && value == 0.0
    {
      this.id := id;
      enabled, keyframes, lastTime, value := true, [], 0.0, 0.0;
    }

    /** addKeyframe(id, time, value, easingFunction). */
    method AddKeyframe(kid: string, time: real, kvalue: real, easing: string)
      modifies this`keyframes, this`lastTime
      ensures keyframes == Insert(old(keyframes), InsertPosition(old(keyframes), old(lastTime), time),
                                  Keyframe(kid, time, Tween(kvalue, easing)))
      ensures lastTime == MaxTime(old(lastTime), time)
      ensures old(Sorted(keyframes) && Bounded(keyframes, lastTime)) ==> Sorted(keyframes) && Bounded(keyframes, lastTime)
    {
      keyframes, lastTime := AddSorted(keyframes, lastTime, Keyframe(kid, time, Tween(kvalue, easing)));
    }

    /** sort(): keyframes ordered by time, lastTime from the last one. */
    method Sort()
      requires |keyframes| > 0
      modifies this`keyframes, this`lastTime
      ensures Sorted(keyframes) && multiset(keyframes) == multiset(old(keyframes)) && |keyframes| == |old(keyframes)|
      ensures lastTime == keyframes[|keyframes| - 1].time && Bounded(keyframes, lastTime)
    {
      var sorted := SortByTime(keyframes);
      SortedLastBounds(sorted);
      keyframes, lastTime := sorted, sorted[|sorted| - 1].time;
    }

    /** update(t), which setTime also is. */
    method Update(t: real, ease: (string, real) -> real) returns (o: Outcome)
      modifies this`value
      ensures (State(), o) == UpdateValue(old(State()), t, ease)
    {
      if !enabled || |keyframes| == 0 {
        return Silent;
      }
      var x := Interpolate(keyframes, t, ease);
      value := x.value;
      return Notified(t, value, x.segment);
    }
  }

  class EventChannel {
    const id: string
    var enabled: bool
    var keyframes: seq<Keyframe<Callback>>
    var lastTime: real
    var oldTime: real
    var callbackIndex: nat

    ghost predicate Valid()
      reads this
    {
      callbackIndex <= |keyframes|
    }

    function State(): EventState
      reads this
    {
      EventState(enabled, keyframes, oldTime, callbackIndex)
    }

    /** new EventChannel(id): enabled, no keyframes, cursor and time 0. */
    constructor (id: string)
      ensures Valid() && this.id == id && enabled && keyframes == [] && lastTime == 0.0
      ensures oldTime == 0.0 && callbackIndex == 0
    {
      this.id := id;
      enabled, keyframes, lastTime, oldTime, callbackIndex := true, [], 0.0, 0.0, 0;
    }

    /** addCallback(id, time, callback). */
    method AddCallback(kid: string, time: real, callback: Callback)
      requires Valid()
      modifies this`keyframes, this`lastTime
      ensures Valid()
      ensures keyframes == Insert(old(keyframes), InsertPosition(old(keyframes), old(lastTime), time),
                                  Keyframe(kid, time, callback))
      ensures lastTime == MaxTime(old(lastTime), time)
      ensures old(Sorted(keyframes) && Bounded(keyframes, lastTime)) ==> Sorted(keyframes) && Bounded(keyframes, lastTime)
    {
      keyframes, lastTime := AddSorted(keyframes, lastTime, Keyframe(kid, time, callback));
    }

    /** sort(), inherited from AbstractTimelineChannel. */
    method Sort()
      requires Valid() && |keyframes| > 0
      modifies this`keyframes, this`lastTime
      ensures Valid()
      ensures Sorted(keyframes) && multiset(keyframes) == multiset(old(keyframes)) && |keyframes| == |old(keyframes)|
      ensures lastTime == keyframes[|keyframes| - 1].time && Bounded(keyframes, lastTime)
    {
      var sorted := SortByTime(keyframes);
      SortedLastBounds(sorted);
      keyframes, lastTime := sorted, sorted[|sorted| - 1].time;
    }

    /** update(t): after a jump back every remaining callback fires and the
        cursor restarts at 0; then callbacks fire while the cursor's
        keyframe is before t. */
    method Update(t: real) returns (o: Outcome)
      requires Valid()
      modifies this`callbackIndex, this`oldTime
      ensures Valid() && (State(), o) == UpdateEvent(old(State()), t)
    {
      if !enabled || |keyframes| == 0 {
        return Silent;
      }
      var index, fired := Fire(keyframes, callbackIndex, oldTime, t);
      callbackIndex, oldTime := index, t;
      return Fired(fired);
    }

    /** setTime(t): the cursor moved without firing anything. */
    method SetTime(t: real) returns (o: Outcome)
      requires Valid()
      modifies this`callbackIndex, this`oldTime
      ensures Valid() && (State(), o) == PlaceEvent(old(State()), t)
    {
      o := Silent;
      if enabled && |keyframes| > 0 {
        if t <= keyframes[0].time {
          callbackIndex := 0;
        } else {
          var n := Find(keyframes, t);
          callbackIndex := n + 1;
        }
        oldTime := t;
      }
    }
  }

  // ---------------------------------------------------------------------
  // TimelineComponent

  /** A channel of a timeline: a value channel or an event channel. */
  datatype Channel = ValueTrack(vc: ValueChannel) | EventTrack(ec: EventChannel) {
    function Object(): object {
      if ValueTrack? then vc else ec
    }
  }

  datatype ChannelState = ValueOf(v: ValueState) | EventOf(e: EventState) {
    ghost predicate Valid() {
      EventOf? ==> e.callbackIndex <= |e.keyframes|
    }
  }

  function StateOf(c: Channel): ChannelState
    reads c.Object()
  {
    match c
    case ValueTrack(v) => ValueOf(v.State())
    case EventTrack(e) => EventOf(e.State())
  }

  /** channel.update(t) on a channel's state. */
  function UpdateState(s: ChannelState, t: real, ease: (string, real) -> real): (r: (ChannelState, Outcome))
    requires s.Valid()
    ensures r.0.Valid()
  {
    match s
    case ValueOf(v) => var (v', o) := UpdateValue(v, t, ease); (ValueOf(v'), o)
    case EventOf(e) => var (e', o) := UpdateEvent(e, t); (EventOf(e'), o)
  }

  /** channel.setTime(t) on a channel's state; a value channel's setTime is
      its update. */
  function PlaceState(s: ChannelState, t: real, ease: (string, real) -> real): (r: (ChannelState, Outcome))
    requires s.Valid()
    ensures r.0.Valid()
  {
    match s
    case ValueOf(v) => var (v', o) := UpdateValue(v, t, ease); (ValueOf(v'), o)
    case EventOf(e) => var (e', o) := PlaceEvent(e, t); (EventOf(e'), o)
  }

  /** channel.update(t), for either kind of channel. */
  method UpdateChannel(c: Channel, t: real, ease: (string, real) -> real) returns (o: Outcome)
    requires StateOf(c).Valid()
    modifies c.Object()
    ensures (StateOf(c), o) == UpdateState(old(StateOf(c)), t, ease)
  {
    if c.ValueTrack? {
      o := c.vc.Update(t, ease);
    } else {
      o := c.ec.Update(t);
    }
  }

  /** channel.setTime(t), for either kind of channel. */
  method SetChannelTime(c: Channel, t: real, ease: (string, real) -> real) returns (o: Outcome)
    requires StateOf(c).Valid()
    modifies c.Object()
    ensures (StateOf(c), o) == PlaceState(old(StateOf(c)), t, ease)
  {
    if c.ValueTrack? {
      o := c.vc.Update(t, ease);
    } else {
      o := c.ec.SetTime(t);
    }
  }

  /** Truncating division's integer part, as JavaScript's % uses it. */
  function Trunc(x: real): int {
    if x >= 0.0 then x.Floor else -((-x).Floor)
  }

  /** JavaScript's a % b on numbers: the remainder takes the sign of a. */
  function JsMod(a: real, b: real): real
    requires b != 0.0
  {
    a - b * Trunc(a / b) as real
  }

  /** The time TimelineComponent.update(dt) moves to: past the duration a
      looping timeline wraps around and any other stops at the end. */
  function NextTime(time: real, dt: real, duration: real, loop: bool): real
    requires !(loop && duration == 0.0)
  {
    var t := time + dt;
    if t > duration then (if loop then JsMod(t, duration) else duration) else t
  }

  /** A timeline that does not loop advances to time + dt but never past
      its duration. */
  lemma NextTimeClamps(time: real, dt: real, duration: real)
    ensures NextTime(time, dt, duration, false) <= duration
    ensures NextTime(time, dt, duration, false) == if time + dt <= duration then time + dt else duration
  {
  }

  /** A looping timeline that runs past a positive duration lands inside
      [0, duration), a whole number of durations (at least one) back. */
  lemma NextTimeWraps(time: real, dt: real, duration: real)
    requires duration > 0.0 && time + dt > duration
    ensures var r := NextTime(time, dt, duration, true);
      var k := ((time + dt) / duration).Floor;
      0.0 <= r < duration && k >= 1 && r == time + dt - k as real * duration
  {
    var t := time + dt;
    var q := t / duration;
    QuotientAboveOne(t, duration);
    var k := q.Floor;
    FloorScaled(q, k, duration, t);
  }

  lemma QuotientAboveOne(t: real, d: real)
    requires d > 0.0 && t > d
    ensures t / d > 1.0 && (t / d) * d == t
  {
  }

  /** For q = t / d with d > 0: k = floor(q) gives k * d <= t < k * d + d. */
  lemma FloorScaled(q: real, k: int, d: real, t: real)
    requires d > 0.0 && q * d == t && k as real <= q < k as real + 1.0
    ensures k as real * d <= t < k as real * d + d
  {
    calc {
      k as real * d;
    <= { MulMonotone(k as real, q, d); }
      q * d;
    == t;
    }
    calc {
      t;
    == q * d;
    < { MulStrict(q, k as real + 1.0, d); }
      (k as real + 1.0) * d;
    == { AddOneTimes(k as real, d); }
      k as real * d + d;
    }
  }

  lemma AddOneTimes(x: real, d: real)
    ensures (x + 1.0) * d == x * d + d
  {
  }

  lemma MulMonotone(x: real, y: real, d: real)
    requires x <= y && d > 0.0
    ensures x * d <= y * d
  {
  }

  lemma MulStrict(x: real, y: real, d: real)
    requires x < y && d > 0.0
    ensures x * d < y * d
  {
  }

  class TimelineComponent {
    var channels: seq<Channel>
    var time: real
    var duration: real
    var loop: bool

    /** The channel objects of this timeline. */
    ghost var Objects: set<object>

    /** Each channel object appears once, with its cursor in range. */
    ghost predicate Valid()
      reads this, Objects
    {
      (forall i, j :: 0 <= i < j < |channels| ==> channels[i].Object() != channels[j].Object()) &&
      this !in Objects &&
      forall j :: 0 <= j < |channels| ==> channels[j].Object() in Objects && StateOf(channels[j]).Valid()
    }

    /** new TimelineComponent(): no channels, time and duration 0, no loop. */
    constructor ()
      ensures Valid() && channels == [] && Objects == {} && time == 0.0 && duration == 0.0 && !loop
    {
      channels, time, duration, loop := [], 0.0, 0.0, false;
      Objects := {};
    }

    /** update(dt): the time advanced (clamped or wrapped); when it moved,
        every channel updated to it in order. */
    method Update(dt: real, ease: (string, real) -> real) returns (outcomes: seq<Outcome>)
      requires Valid() && !(loop && duration == 0.0)
      modifies this`time, Objects
      ensures Valid() && channels == old(channels) && duration == old(duration) && loop == old(loop)
      ensures time == NextTime(old(time), dt, duration, loop)
      ensures time == old(time) ==> outcomes == [] && unchanged(Objects)
      ensures time != old(time) ==> |outcomes| == |channels|
      ensures time != old(time) ==> forall j :: 0 <= j < |channels| ==>
        (StateOf(channels[j]), outcomes[j]) == UpdateState(old(StateOf(channels[j])), time, ease)
    {
      var t := time + dt;
      if t > duration {
        if loop {
          t := JsMod(t, duration);
        } else {
          t := duration;
        }
      }
      if t == time {
        return [];
      }
      time := t;
      outcomes := UpdateChannels(t, ease);
    }

    /** The loop of update: every channel's update(t), in order. */
    method UpdateChannels(t: real, ease: (string, real) -> real) returns (outcomes: seq<Outcome>)
      requires Valid()
      modifies Objects
      ensures Valid() && |outcomes| == |channels|
      ensures forall j :: 0 <= j < |channels| ==>
        (StateOf(channels[j]), outcomes[j]) == UpdateState(old(StateOf(channels[j])), t, ease)
    {
      outcomes := [];
      for n := 0 to |channels|
        invariant Valid() && |outcomes| == n
        invariant forall j :: 0 <= j < n ==>
          (StateOf(channels[j]), outcomes[j]) == UpdateState(old(StateOf(channels[j])), t, ease)
        invariant forall j :: n <= j < |channels| ==> StateOf(channels[j]) == old(StateOf(channels[j]))
      {
        var o := UpdateChannel(channels[n], t, ease);
        outcomes := outcomes + [o];
      }
    }

    /** setTime(t): the time set and every channel's setTime called in order. */
    method SetTime(t: real, ease: (string, real) -> real) returns (outcomes: seq<Outcome>)
      requires Valid()
      modifies this`time, Objects
      ensures Valid() && channels == old(channels) && duration == old(duration) && loop == old(loop)
      ensures time == t && |outcomes| == |channels|
      ensures forall j :: 0 <= j < |channels| ==>
        (StateOf(channels[j]), outcomes[j]) == PlaceState(old(StateOf(channels[j])), t, ease)
    {
      time := t;
      outcomes := PlaceChannels(t, ease);
    }

    /** The loop of setTime: every channel's setTime(t), in order. */
    method PlaceChannels(t: real, ease: (string, real) -> real) returns (outcomes: seq<Outcome>)
      requires Valid()
      modifies Objects
      ensures Valid() && |outcomes| == |channels|
      ensures forall j :: 0 <= j < |channels| ==>
        (StateOf(channels[j]), outcomes[j]) == PlaceState(old(StateOf(channels[j])), t, ease)
    {
      outcomes := [];
      for n := 0 to |channels|
        invariant Valid() && |outcomes| == n
        invariant forall j :: 0 <= j < n ==>
          (StateOf(channels[j]), outcomes[j]) == PlaceState(old(StateOf(channels[j])), t, ease)
        invariant forall j :: n <= j < |channels| ==> StateOf(channels[j]) == old(StateOf(channels[j]))
      {
        var o := SetChannelTime(channels[n], t, ease);
        outcomes := outcomes + [o];
      }
    }
  }

  // ---------------------------------------------------------------------
  // TimelineSystem

  /** Timelines none of whose objects was written stay valid and keep their
      channels and channel states. */
  twostate lemma StatesKept(comps: seq<TimelineComponent>)
    requires forall i :: 0 <= i < |comps| ==> old(comps[i].Valid())
    requires unchanged(set c | c in comps) && unchanged(old(Footprint(comps)))
    ensures forall i :: 0 <= i < |comps| ==>
      comps[i].Valid() && comps[i].channels == old(comps[i].channels) &&
      StatesOf(comps[i].channels) == old(StatesOf(comps[i].channels))
  {
  }

  /** The timelines a system process call is given: distinct components
      whose channels belong to one component each and are no component. */
  ghost predicate Separate(comps: seq<TimelineComponent>)
    reads (set c | c in comps)`Objects
  {
    (forall i, j :: 0 <= i < j < |comps| ==> comps[i] != comps[j] && comps[i].Objects !! comps[j].Objects) &&
    forall i, j :: 0 <= i < |comps| && 0 <= j < |comps| ==> comps[i] !in comps[j].Objects
  }

  /** The states of a list of channels, in order. */
  ghost function StatesOf(chs: seq<Channel>): (ss: seq<ChannelState>)
    reads set j | 0 <= j < |chs| :: chs[j].Object()
    ensures |ss| == |chs| && forall j :: 0 <= j < |chs| ==> ss[j] == StateOf(chs[j])
    decreases |chs|
  {
    if |chs| == 0 then [] else StatesOf(chs[..|chs| - 1]) + [StateOf(chs[|chs| - 1])]
  }

  /** One timeline's channels went from the states pre to post, with
      outcomes os, as its time moved from t0 to t: unchanged and silent when
      the time stood still, each channel updated to t otherwise. */
  ghost predicate Advanced(t0: real, t: real, pre: seq<ChannelState>, post: seq<ChannelState>, os: seq<Outcome>,
                           ease: (string, real) -> real)
  {
    (t == t0 ==> os == [] && post == pre) &&
    (t != t0 ==> UpdatedAll(t, pre, post, os, ease))
  }

  /** Channel by channel, post and os are what UpdateState gives pre at t. */
  ghost predicate UpdatedAll(t: real, pre: seq<ChannelState>, post: seq<ChannelState>, os: seq<Outcome>,
                             ease: (string, real) -> real)
    decreases |pre|
  {
    |post| == |pre| && |os| == |pre| &&
    (|pre| > 0 ==>
      var n := |pre| - 1;
      pre[n].Valid() && (post[n], os[n]) == UpdateState(pre[n], t, ease) &&
      UpdatedAll(t, pre[..n], post[..n], os[..n], ease))
  }

  /** UpdatedAll read channel by channel. */
  lemma {:induction false} UpdatedAllIff(t: real, pre: seq<ChannelState>, post: seq<ChannelState>, os: seq<Outcome>,
                                        ease: (string, real) -> real)
    ensures UpdatedAll(t, pre, post, os, ease) <==>
      |post| == |pre| && |os| == |pre| &&
      forall j :: 0 <= j < |pre| ==> pre[j].Valid() && (post[j], os[j]) == UpdateState(pre[j], t, ease)
    decreases |pre|
  {
    if |pre| > 0 && |post| == |pre| && |os| == |pre| {
      var n := |pre| - 1;
      UpdatedAllIff(t, pre[..n], post[..n], os[..n], ease);
      assert forall j :: 0 <= j < n ==> pre[..n][j] == pre[j] && post[..n][j] == post[j] && os[..n][j] == os[j];
    }
  }

  /** One timeline's channels went from the states pre to post, with
      outcomes os, as its time was set to t: each channel placed at t. */
  ghost predicate Placed(t: real, pre: seq<ChannelState>, post: seq<ChannelState>, os: seq<Outcome>,
                         ease: (string, real) -> real)
    decreases |pre|
  {
    |post| == |pre| && |os| == |pre| &&
    (|pre| > 0 ==>
      var n := |pre| - 1;
      pre[n].Valid() && (post[n], os[n]) == PlaceState(pre[n], t, ease) &&
      Placed(t, pre[..n], post[..n], os[..n], ease))
  }

  /** Placed read channel by channel. */
  lemma {:induction false} PlacedIff(t: real, pre: seq<ChannelState>, post: seq<ChannelState>, os: seq<Outcome>,
                                    ease: (string, real) -> real)
    ensures Placed(t, pre, post, os, ease) <==>
      |post| == |pre| && |os| == |pre| &&
      forall j :: 0 <= j < |pre| ==> pre[j].Valid() && (post[j], os[j]) == PlaceState(pre[j], t, ease)
    decreases |pre|
  {
    if |pre| > 0 && |post| == |pre| && |os| == |pre| {
      var n := |pre| - 1;
      PlacedIff(t, pre[..n], post[..n], os[..n], ease);
      assert forall j :: 0 <= j < n ==> pre[..n][j] == pre[j] && post[..n][j] == post[j] && os[..n][j] == os[j];
    }
  }

  ghost function Footprint(comps: seq<TimelineComponent>): set<object>
    reads (set c | c in comps)`Objects
  {
    set c, o | c in comps && o in c.Objects :: o
  }

  /** Every timeline set to time 0, as a requested reset does: outcomes[i]
      is what the channels of timeline i report, in order. */
  method ResetAll(comps: seq<TimelineComponent>, ease: (string, real) -> real) returns (outcomes: seq<seq<Outcome>>)
    requires Separate(comps) && forall i :: 0 <= i < |comps| ==> comps[i].Valid()
    modifies (set c | c in comps), Footprint(comps)
    ensures forall i :: 0 <= i < |comps| ==>
      comps[i].Valid() && comps[i].channels == old(comps[i].channels) && comps[i].Objects == old(comps[i].Objects) &&
      comps[i].duration == old(comps[i].duration) && comps[i].loop == old(comps[i].loop) && comps[i].time == 0.0
    ensures |outcomes| == |comps|
    ensures forall i :: 0 <= i < |comps| ==>
      Placed(0.0, old(StatesOf(comps[i].channels)), StatesOf(comps[i].channels), outcomes[i], ease)
  {
    outcomes := [];
    for r := 0 to |comps|
      invariant Separate(comps)
      invariant forall i :: 0 <= i < |comps| ==>
        comps[i].Valid() && comps[i].channels == old(comps[i].channels) && comps[i].Objects == old(comps[i].Objects) &&
        comps[i].duration == old(comps[i].duration) && comps[i].loop == old(comps[i].loop)
      invariant |outcomes| == r
      invariant forall i :: 0 <= i < r ==>
        comps[i].time == 0.0 && Placed(0.0, old(StatesOf(comps[i].channels)), StatesOf(comps[i].channels), outcomes[i], ease)
      invariant forall i :: r <= i < |comps| ==> StatesOf(comps[i].channels) == old(StatesOf(comps[i].channels))
    {
      var os := ResetOne(comps, r, ease);
      outcomes := outcomes + [os];
    }
  }

  /** One iteration of ResetAll: sets the timeline at r to time 0 and
      leaves every other timeline as it was. */
  method ResetOne(comps: seq<TimelineComponent>, r: nat, ease: (string, real) -> real) returns (os: seq<Outcome>)
    requires r < |comps| && Separate(comps) && forall i :: 0 <= i < |comps| ==> comps[i].Valid()
    modifies comps[r], comps[r].Objects
    ensures forall i :: 0 <= i < |comps| ==>
      comps[i].Valid() && comps[i].channels == old(comps[i].channels) && comps[i].Objects == old(comps[i].Objects) &&
      comps[i].duration == old(comps[i].duration) && comps[i].loop == old(comps[i].loop)
    ensures forall i :: 0 <= i < |comps| && i != r ==>
      comps[i].time == old(comps[i].time) && StatesOf(comps[i].channels) == old(StatesOf(comps[i].channels))
    ensures comps[r].time == 0.0
    ensures Placed(0.0, old(StatesOf(comps[r].channels)), StatesOf(comps[r].channels), os, ease)
  {
    OthersKeep(comps, r);
    os := comps[r].SetTime(0.0, ease);
    PlacedIff(0.0, old(StatesOf(comps[r].channels)), StatesOf(comps[r].channels), os, ease);
  }

  /** Every timeline advanced by tpf: outcomes[i] is what the channels of
      timeline i report, nothing when its time did not move. */
  method AdvanceAll(comps: seq<TimelineComponent>, tpf: real, ease: (string, real) -> real)
    returns (outcomes: seq<seq<Outcome>>)
    requires Separate(comps) && forall i :: 0 <= i < |comps| ==> comps[i].Valid() && !(comps[i].loop && comps[i].duration == 0.0)
    modifies (set c | c in comps), Footprint(comps)
    ensures forall i :: 0 <= i < |comps| ==>
      comps[i].Valid() && comps[i].channels == old(comps[i].channels) && comps[i].Objects == old(comps[i].Objects) &&
      comps[i].duration == old(comps[i].duration) && comps[i].loop == old(comps[i].loop) &&
      comps[i].time == NextTime(old(comps[i].time), tpf, comps[i].duration, comps[i].loop)
    ensures |outcomes| == |comps|
    ensures forall i :: 0 <= i < |comps| ==>
      Advanced(old(comps[i].time), comps[i].time, old(StatesOf(comps[i].channels)), StatesOf(comps[i].channels), outcomes[i], ease)
  {
    outcomes := [];
    for r := 0 to |comps|
      invariant Separate(comps)
      invariant forall i :: 0 <= i < |comps| ==>
        comps[i].Valid() && comps[i].channels == old(comps[i].channels) && comps[i].Objects == old(comps[i].Objects) &&
        comps[i].duration == old(comps[i].duration) && comps[i].loop == old(comps[i].loop)
      invariant |outcomes| == r
      invariant forall i :: 0 <= i < r ==>
        comps[i].time == NextTime(old(comps[i].time), tpf, comps[i].duration, comps[i].loop) &&
        Advanced(old(comps[i].time), comps[i].time, old(StatesOf(comps[i].channels)), StatesOf(comps[i].channels), outcomes[i], ease)
      invariant forall i :: r <= i < |comps| ==>
        comps[i].time == old(comps[i].time) && StatesOf(comps[i].channels) == old(StatesOf(comps[i].channels))
    {
      var os := AdvanceOne(comps, r, tpf, ease);
      outcomes := outcomes + [os];
    }
  }

  /** One step of AdvanceAll: timeline r advanced, every other one untouched. */
  method AdvanceOne(comps: seq<TimelineComponent>, r: nat, tpf: real, ease: (string, real) -> real)
    returns (os: seq<Outcome>)
    requires r < |comps| && Separate(comps) && forall i :: 0 <= i < |comps| ==> comps[i].Valid()
    requires !(comps[r].loop && comps[r].duration == 0.0)
    modifies comps[r], comps[r].Objects
    ensures forall i :: 0 <= i < |comps| ==>
      comps[i].Valid() && comps[i].channels == old(comps[i].channels) && comps[i].Objects == old(comps[i].Objects) &&
      comps[i].duration == old(comps[i].duration) && comps[i].loop == old(comps[i].loop)
    ensures comps[r].time == NextTime(old(comps[r].time), tpf, comps[r].duration, comps[r].loop)
    ensures forall i :: 0 <= i < |comps| && i != r ==>
      comps[i].time == old(comps[i].time) && StatesOf(comps[i].channels) == old(StatesOf(comps[i].channels))
    ensures Advanced(old(comps[r].time), comps[r].time, old(StatesOf(comps[r].channels)), StatesOf(comps[r].channels), os, ease)
  {
    OthersKeep(comps, r);
    os := comps[r].Update(tpf, ease);
    UpdatedAllIff(comps[r].time, old(StatesOf(comps[r].channels)), StatesOf(comps[r].channels), os, ease);
  }

  class TimelineSystem {
    var passive: bool
    var paused: bool
    var entered: bool
    var resetRequest: bool
    var time: real

    /** The constructor sets none of these fields. The flags start undefined,
        which every test of them reads as false. time stays undefined until
        the first reset writes it, and nothing reads it, so its value is left
        unspecified here. */
    constructor ()
      ensures !passive && !paused && !entered && !resetRequest
    {
      passive, paused, entered, resetRequest := false, false, false, false;
    }

    /** play() (and resume()): active and unpaused; entered is set unless
        the system was paused. */
    method Play()
      modifies this
      ensures !passive && !paused && entered == (old(entered) || !old(paused))
      ensures resetRequest == old(resetRequest) && time == old(time)
    {
      passive := false;
      if !paused {
        entered := true;
      }
      paused := false;
    }

    /** pause(): passive and paused. */
    method Pause()
      modifies this
      ensures passive && paused && entered == old(entered) && resetRequest == old(resetRequest) && time == old(time)
    {
      passive := true;
      paused := true;
    }

    /** stop(): active, unpaused, with a reset requested of the next process. */
    method Stop()
      modifies this
      ensures !passive && !paused && resetRequest && entered == old(entered) && time == old(time)
    {
      passive := false;
      resetRequest := true;
      paused := false;
    }

    /** process(entities, tpf): a requested reset sets every timeline to
        time 0 and makes the system passive; otherwise every timeline is
        advanced by tpf. outcomes[i] is what the channels of timeline i
        report. */
    method Process(comps: seq<TimelineComponent>, tpf: real, ease: (string, real) -> real)
      returns (outcomes: seq<seq<Outcome>>)
      requires Separate(comps) && this !in Footprint(comps)
      requires forall i :: 0 <= i < |comps| ==> comps[i].Valid() && !(comps[i].loop && comps[i].duration == 0.0)
      modifies this, (set c | c in comps), Footprint(comps)
      ensures forall i :: 0 <= i < |comps| ==>
        comps[i].Valid() && comps[i].channels == old(comps[i].channels) &&
        comps[i].duration == old(comps[i].duration) && comps[i].loop == old(comps[i].loop)
      ensures |outcomes| == |comps|
      ensures old(resetRequest) ==>
        !resetRequest && passive && time == 0.0 && paused == old(paused) && entered == old(entered) &&
        (forall c :: c in comps ==> c.time == 0.0) &&
        forall i :: 0 <= i < |comps| ==>
          Placed(0.0, old(StatesOf(comps[i].channels)), StatesOf(comps[i].channels), outcomes[i], ease)
      ensures !old(resetRequest) ==>
        unchanged(this) &&
        (forall c :: c in comps ==> c.time == NextTime(old(c.time), tpf, c.duration, c.loop)) &&
        forall i :: 0 <= i < |comps| ==>
          Advanced(old(comps[i].time), comps[i].time, old(StatesOf(comps[i].channels)), StatesOf(comps[i].channels), outcomes[i], ease)
    {
      if resetRequest {
        resetRequest := false;
        StatesKept(comps);
        outcomes := ResetAll(comps, ease);
        label reset:
        time := 0.0;
        passive := true;
        StatesKept@reset(comps);
        return;
      }
      outcomes := AdvanceAll(comps, tpf, ease);
    }
  }

  /** The objects of component r are those of no other component. */
  lemma OthersKeep(comps: seq<TimelineComponent>, r: nat)
    requires Separate(comps) && r < |comps|
    ensures forall i :: 0 <= i < |comps| && i != r ==> comps[i] != comps[r] && comps[i].Objects !! comps[r].Objects
  {
  }
}
