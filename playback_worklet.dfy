/** The playback worklet (public/audio-playback-worklet.js): a queue of
    received 16-bit sample buffers drained one sample per output slot.
    A sample is kept as its signed 16-bit integer; the division by 32768 that
    turns it into a float is not modelled. */
module Playback {
  import opened Common

  /** An output slot: a sample, or the NaN written when a buffer with no
      samples is taken from the queue (`undefined / 32768`). */
  datatype Slot = Sample(v: int) | NaN

  /** The processor's fields. */
  datatype Player = Player(queue: seq<seq<int>>, current: Option<seq<int>>, position: nat)

  const Empty := Player([], None, 0)

  // ---------------------------------------------------------------------------
  // Int16Array conversion

  predicate IsInt16(v: int) {
    -0x8000 <= v < 0x8000
  }

  /** ECMAScript ToInt16: reduce modulo 2^16 into the signed range. */
  function ToInt16(v: int): (r: int)
    ensures IsInt16(r)
    ensures IsInt16(v) ==> r == v
  {
    var m := v % 0x1_0000;
    if m >= 0x8000 then m - 0x1_0000 else m
  }

  /** `new Int16Array(data)`. */
  function ToInt16Array(data: seq<int>): (r: seq<int>)
    ensures |r| == |data|
    ensures forall i :: 0 <= i < |r| ==> r[i] == ToInt16(data[i])
  {
    if data == [] then [] else [ToInt16(data[0])] + ToInt16Array(data[1..])
  }

  // ---------------------------------------------------------------------------
  // The queue

  function Flatten(bs: seq<seq<int>>): seq<int> {
    if bs == [] then [] else bs[0] + Flatten(bs[1..])
  }

  lemma {:induction false} FlattenAppend(bs: seq<seq<int>>, b: seq<int>)
    ensures Flatten(bs + [b]) == Flatten(bs) + b
  {
    if bs != [] {
      assert (bs + [b])[1..] == bs[1..] + [b];
      FlattenAppend(bs[1..], b);
    }
  }

  /** The samples still to be played, in order: the rest of the current
      buffer, then every queued buffer. */
  function Pending(s: Player): seq<int> {
    Rest(s) + Flatten(s.queue)
  }

  /** The unplayed part of the current buffer. */
  function Rest(s: Player): seq<int> {
    if s.current.Some? && s.position < |s.current.value| then s.current.value[s.position..] else []
  }

  /** Every queued buffer holds a sample and the position is inside the
      current buffer or at its end. */
  predicate WellFormed(s: Player) {
    && (forall b :: b in s.queue ==> b != [])
    && (s.current.Some? ==> s.position <= |s.current.value|)
  }

  /** `addAudioData`: the converted buffer joins the tail of the queue. */
  function AddAudioData(s: Player, data: seq<int>): (t: Player)
    ensures t.queue == s.queue + [ToInt16Array(data)]
    ensures t.current == s.current && t.position == s.position
  {
    s.(queue := s.queue + [ToInt16Array(data)])
  }

  /** `clear`. */
  function Clear(s: Player): (t: Player)
    ensures Pending(t) == [] && WellFormed(t)
  {
    Empty
  }

  /** Adding data puts its samples after everything already pending. */
  lemma AddAudioDataAppends(s: Player, data: seq<int>)
    requires WellFormed(s) && data != []
    ensures Pending(AddAudioData(s, data)) == Pending(s) + ToInt16Array(data)
    ensures WellFormed(AddAudioData(s, data))
  {
    var b := ToInt16Array(data);
    assert |b| == |data|;
    Enqueued(s, b);
  }

  lemma Enqueued(s: Player, b: seq<int>)
    requires WellFormed(s) && b != []
    ensures Pending(s.(queue := s.queue + [b])) == Pending(s) + b
    ensures WellFormed(s.(queue := s.queue + [b]))
  {
    var t := s.(queue := s.queue + [b]);
    FlattenAppend(s.queue, b);
    assert Rest(t) == Rest(s);
    assert forall c :: c in t.queue ==> c in s.queue || c == b;
  }

  /** One slot of `process`. */
  function Step(s: Player): (Slot, Player) {
    if s.current.Some? && s.position < |s.current.value| then
      (Sample(s.current.value[s.position]), s.(position := s.position + 1))
    else if s.queue != [] then
      var b := s.queue[0];
      (if b != [] then Sample(b[0]) else NaN, Player(s.queue[1..], Some(b), 1))
    else (Sample(0), s)
  }

  /** `n` slots of `process`: what they hold and the state after them. */
  function Drain(s: Player, n: nat): (r: (seq<Slot>, Player))
    ensures |r.0| == n
  {
    if n == 0 then ([], s)
    else
      var prev := Drain(s, n - 1);
      var next := Step(prev.1);
      (prev.0 + [next.0], next.1)
  }

  function Samples(xs: seq<int>): (r: seq<Slot>)
    ensures |r| == |xs|
    ensures forall i :: 0 <= i < |xs| ==> r[i] == Sample(xs[i])
  {
    if xs == [] then [] else [Sample(xs[0])] + Samples(xs[1..])
  }

  function Zeros(n: nat): (r: seq<Slot>)
    ensures |r| == n
    ensures forall i :: 0 <= i < n ==> r[i] == Sample(0)
  {
    if n == 0 then [] else Zeros(n - 1) + [Sample(0)]
  }

  /** On a well-formed state a slot plays the next pending sample, or 0 with
      nothing changed when nothing is pending. */
  lemma StepPlaysNext(s: Player)
    requires WellFormed(s)
    ensures WellFormed(Step(s).1)
    ensures Pending(s) != [] ==> Step(s).0 == Sample(Pending(s)[0]) && Pending(Step(s).1) == Pending(s)[1..]
    ensures Pending(s) == [] ==> Step(s) == (Sample(0), s)
  {
    if s.current.Some? && s.position < |s.current.value| {
      var t := Step(s).1;
      assert Rest(s)[1..] == Rest(t);
      assert Pending(s)[1..] == Rest(s)[1..] + Flatten(s.queue);
      assert Pending(s)[0] == Rest(s)[0] == s.current.value[s.position];
    } else if s.queue != [] {
      var b := s.queue[0];
      assert b in s.queue;
      assert Pending(s) == b + Flatten(s.queue[1..]);
      var t := Step(s).1;
      assert forall c :: c in t.queue ==> c in s.queue;
      assert b[1..] == Rest(t);
    }
  }

  /** Samples come out in the order they were queued, each exactly once,
      followed by silence when the queue runs dry; the state afterwards holds
      exactly the samples not yet played. */
  lemma {:induction false} DrainPlaysInOrder(s: Player, n: nat)
    requires WellFormed(s)
    ensures n <= |Pending(s)| ==>
      Drain(s, n).0 == Samples(Pending(s)[..n]) && Pending(Drain(s, n).1) == Pending(s)[n..]
    ensures n >= |Pending(s)| ==>
      Drain(s, n).0 == Samples(Pending(s)) + Zeros(n - |Pending(s)|) && Pending(Drain(s, n).1) == []
    ensures WellFormed(Drain(s, n).1)
  {
    if n == 0 {
      DrainNothing(s);
    } else {
      DrainPlaysInOrder(s, n - 1);
      DrainStep(s, n);
    }
  }

  /** No slot plays nothing and changes nothing. */
  lemma DrainNothing(s: Player)
    ensures Drain(s, 0).0 == Samples(Pending(s)[..0]) && Pending(Drain(s, 0).1) == Pending(s)[0..]
    ensures 0 >= |Pending(s)| ==> Drain(s, 0).0 == Samples(Pending(s)) + Zeros(0) && Pending(Drain(s, 0).1) == []
    ensures Drain(s, 0).1 == s
  {
    assert Pending(s)[..0] == [];
  }

  /** One more slot keeps the description of `Drain` true. */
  lemma DrainStep(s: Player, n: nat)
    requires n > 0
    requires n - 1 <= |Pending(s)| ==>
      Drain(s, n - 1).0 == Samples(Pending(s)[..n - 1]) && Pending(Drain(s, n - 1).1) == Pending(s)[n - 1..]
    requires n - 1 >= |Pending(s)| ==>
      Drain(s, n - 1).0 == Samples(Pending(s)) + Zeros(n - 1 - |Pending(s)|) && Pending(Drain(s, n - 1).1) == []
    requires WellFormed(Drain(s, n - 1).1)
    ensures n <= |Pending(s)| ==>
      Drain(s, n).0 == Samples(Pending(s)[..n]) && Pending(Drain(s, n).1) == Pending(s)[n..]
    ensures n >= |Pending(s)| ==>
      Drain(s, n).0 == Samples(Pending(s)) + Zeros(n - |Pending(s)|) && Pending(Drain(s, n).1) == []
    ensures WellFormed(Drain(s, n).1)
  {
    if n - 1 < |Pending(s)| {
      DrainPlaysOne(s, n - 1);
    } else {
      DrainPlaysZero(s, n - 1);
    }
  }

  /** The inductive step while samples are pending. */
  lemma DrainPlaysOne(s: Player, k: nat)
    requires k < |Pending(s)|
    requires Drain(s, k).0 == Samples(Pending(s)[..k]) && Pending(Drain(s, k).1) == Pending(s)[k..]
    requires WellFormed(Drain(s, k).1)
    ensures Drain(s, k + 1).0 == Samples(Pending(s)[..k + 1])
    ensures Pending(Drain(s, k + 1).1) == Pending(s)[k + 1..]
    ensures k + 1 == |Pending(s)| ==> Drain(s, k + 1).0 == Samples(Pending(s)) + Zeros(0) && Pending(Drain(s, k + 1).1) == []
    ensures WellFormed(Drain(s, k + 1).1)
  {
    var p := Pending(s);
    var prev := Drain(s, k);
    var next := Step(prev.1);
    assert Drain(s, k + 1) == (prev.0 + [next.0], next.1);
    StepPlaysNext(prev.1);
    var q := Pending(prev.1);
    assert q[0] == p[k] && q[1..] == p[k + 1..];
    SamplesSnoc(p, k);
    if k + 1 == |p| {
      assert p[..k + 1] == p && p[k + 1..] == [];
    }
  }

  /** The inductive step once nothing is pending. */
  lemma DrainPlaysZero(s: Player, k: nat)
    requires |Pending(s)| <= k
    requires Drain(s, k).0 == Samples(Pending(s)) + Zeros(k - |Pending(s)|) && Pending(Drain(s, k).1) == []
    requires WellFormed(Drain(s, k).1)
    ensures Drain(s, k + 1).0 == Samples(Pending(s)) + Zeros(k + 1 - |Pending(s)|)
    ensures Pending(Drain(s, k + 1).1) == [] && WellFormed(Drain(s, k + 1).1)
  {
    var prev := Drain(s, k);
    StepPlaysNext(prev.1);
    var m := k - |Pending(s)|;
    assert Zeros(m + 1) == Zeros(m) + [Sample(0)];
  }

  lemma SamplesSnoc(p: seq<int>, k: nat)
    requires k < |p|
    ensures Samples(p[..k + 1]) == Samples(p[..k]) + [Sample(p[k])]
  {
    var a := Samples(p[..k + 1]);
    var b := Samples(p[..k]) + [Sample(p[k])];
    assert |a| == |b|;
    assert forall i :: 0 <= i < |a| ==> a[i] == b[i];
  }

  /** An empty buffer taken from the queue plays NaN. */
  lemma EmptyBufferPlaysNaN()
    ensures Step(Player([[]], None, 0)).0 == NaN
  {
  }

  // ---------------------------------------------------------------------------
  // The processor object

  class PlaybackProcessor {
    var queue: seq<seq<int>>
    var current: Option<seq<int>>
    var position: nat

    function State(): Player
      reads this
    {
      Player(queue, current, position)
    }

    constructor ()
      ensures State() == Empty
    {
      queue := [];
      current := None;
      position := 0;
    }

    /** The `addAudioData` message. */
    method OnAddAudioData(data: seq<int>)
      modifies this
      ensures State() == AddAudioData(old(State()), data)
    {
      queue := queue + [ToInt16Array(data)];
    }

    /** The `clear` message. */
    method OnClear()
      modifies this
      ensures State() == Clear(old(State()))
    {
      queue := [];
      current := None;
      position := 0;
    }

    /** `process`: fill the first output channel slot by slot; the processor
        stays alive. */
    method Process(output: seq<array<Slot>>) returns (alive: bool)
      modifies this, if |output| > 0 then {output[0]} else {}
      ensures alive
      ensures |output| == 0 ==> State() == old(State())
      ensures |output| > 0 ==> output[0][..] == Drain(old(State()), output[0].Length).0
      ensures |output| > 0 ==> State() == Drain(old(State()), output[0].Length).1
    {
      if |output| > 0 {
        var channel := output[0];
        var i := 0;
        while i < channel.Length
          invariant 0 <= i <= channel.Length
          invariant channel[..i] == Drain(old(State()), i).0
          invariant State() == Drain(old(State()), i).1
        {
          if current.Some? && position < |current.value| {
            channel[i] := Sample(current.value[position]);
            position := position + 1;
          } else {
            channel[i] := Sample(0);
            if queue != [] {
              var b := queue[0];
              queue := queue[1..];
              current := Some(b);
              position := 0;
              channel[i] := if position < |b| then Sample(b[position]) else NaN;
              position := position + 1;
            }
          }
          assert channel[..i + 1] == channel[..i] + [channel[i]];
          i := i + 1;
        }
        assert channel[..] == channel[..i];
      }
      return true;
    }
  }
}
