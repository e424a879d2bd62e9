/** The capture worklet (public/audio-worklet.js): microphone samples pass
    through to the output and collect in a fixed buffer that is posted as a
    16-bit chunk whenever it fills. A sample is modelled as the integer it
    becomes once scaled by 32768; the float scaling itself is not modelled. */
module Capture {

  /** `bufferSize`. */
  const ChunkSize := 4096

  /** `Math.max(-32768, Math.min(32767, v))`. */
  function Clamp(v: int): (r: int)
    ensures -32768 <= r <= 32767
    ensures -32768 <= v <= 32767 ==> r == v
    ensures v < -32768 ==> r == -32768
    ensures v > 32767 ==> r == 32767
  {
    if v < -32768 then -32768 else if v > 32767 then 32767 else v
  }

  function ClampAll(xs: seq<int>): (r: seq<int>)
    ensures |r| == |xs|
    ensures forall i :: 0 <= i < |xs| ==> r[i] == Clamp(xs[i])
  {
    if xs == [] then [] else [Clamp(xs[0])] + ClampAll(xs[1..])
  }

  /** The chunks a sample stream is cut into: consecutive full buffers,
      clamped; an incomplete tail is not posted. */
  function Chunks(xs: seq<int>): seq<seq<int>>
    decreases |xs|
  {
    if |xs| < ChunkSize then [] else [ClampAll(xs[..ChunkSize])] + Chunks(xs[ChunkSize..])
  }

  /** Every chunk holds exactly 4096 samples, each within the 16-bit range,
      and there is one chunk per full buffer. */
  lemma {:induction false} ChunksShape(xs: seq<int>)
    ensures |Chunks(xs)| == |xs| / ChunkSize
    ensures forall c :: c in Chunks(xs) ==> |c| == ChunkSize && forall v :: v in c ==> -32768 <= v <= 32767
    decreases |xs|
  {
    if |xs| >= ChunkSize {
      ChunksShape(xs[ChunkSize..]);
    }
  }

  /** Cutting a stream whose length is a multiple of the chunk size, then
      one more full buffer, posts one more chunk. */
  lemma {:induction false} ChunksAppend(xs: seq<int>, b: seq<int>)
    requires |xs| % ChunkSize == 0 && |b| == ChunkSize
    ensures Chunks(xs + b) == Chunks(xs) + [ClampAll(b)]
    decreases |xs|
  {
    if |xs| == 0 {
      assert xs + b == b;
      assert b[ChunkSize..] == [];
      assert b[..ChunkSize] == b;
    } else {
      assert (xs + b)[..ChunkSize] == xs[..ChunkSize];
      assert (xs + b)[ChunkSize..] == xs[ChunkSize..] + b;
      ChunksAppend(xs[ChunkSize..], b);
    }
  }

  /** A tail shorter than a buffer is not posted. */
  lemma {:induction false} ChunksIgnoreTail(xs: seq<int>, t: seq<int>)
    requires |xs| % ChunkSize == 0 && |t| < ChunkSize
    ensures Chunks(xs + t) == Chunks(xs)
    decreases |xs|
  {
    if |xs| == 0 {
      assert xs + t == t;
    } else {
      assert (xs + t)[..ChunkSize] == xs[..ChunkSize];
      assert (xs + t)[ChunkSize..] == xs[ChunkSize..] + t;
      ChunksIgnoreTail(xs[ChunkSize..], t);
    }
  }

  class CaptureProcessor {
    const buffer: array<int>
    var bufferIndex: nat
    /** `isMuted`; the field starts undefined in the source, which behaves
        as false. */
    var isMuted: bool
    /** Every `audioData` message posted, in order. */
    var posted: seq<seq<int>>
    /** Every sample taken in while unmuted, in order. */
    ghost var heard: seq<int>
    /** The samples already posted, before clamping. */
    ghost var flushed: seq<int>

    /** The buffer holds exactly the samples heard since the last flush; all
        earlier samples went out as full chunks. */
    ghost predicate Valid()
      reads this, buffer
    {
      && buffer.Length == ChunkSize
      && bufferIndex < ChunkSize
      && |flushed| % ChunkSize == 0
      && heard == flushed + buffer[..bufferIndex]
      && posted == Chunks(flushed)
    }

    constructor ()
      ensures Valid() && fresh(buffer)
      ensures bufferIndex == 0 && !isMuted && posted == [] && heard == []
    {
      buffer := new int[ChunkSize](_ => 0);
      bufferIndex := 0;
      isMuted := false;
      posted := [];
      heard := [];
      flushed := [];
    }

    /** The `setMuted` message. */
    method SetMuted(muted: bool)
      requires Valid()
      modifies this
      ensures Valid() && isMuted == muted
      ensures posted == old(posted) && heard == old(heard) && bufferIndex == old(bufferIndex)
    {
      isMuted := muted;
    }

    /** The flush inside `process`: post the clamped buffer. */
    method Flush()
      requires buffer.Length == ChunkSize
      modifies this
      ensures posted == old(posted) + [ClampAll(buffer[..])]
      ensures bufferIndex == old(bufferIndex) && isMuted == old(isMuted)
      ensures heard == old(heard) && flushed == old(flushed)
    {
      var pcm := new int[ChunkSize];
      var j := 0;
      while j < ChunkSize
        invariant 0 <= j <= ChunkSize
        invariant forall k :: 0 <= k < j ==> pcm[k] == Clamp(buffer[k])
        invariant unchanged(this)
      {
        pcm[j] := if buffer[j] < -32768 then -32768 else if buffer[j] > 32767 then 32767 else buffer[j];
        j := j + 1;
      }
      assert pcm[..] == ClampAll(buffer[..]);
      posted := posted + [pcm[..]];
    }

    /** One sample of the unmuted loop: buffer it, and post the buffer once
        it is full. */
    method Take(v: int)
      requires Valid()
      modifies this, buffer
      ensures Valid() && heard == old(heard) + [v] && isMuted == old(isMuted)
      ensures posted == Chunks(heard)
    {
      ghost var before := buffer[..bufferIndex];
      buffer[bufferIndex] := v;
      assert buffer[..bufferIndex + 1] == before + [v];
      bufferIndex := bufferIndex + 1;
      heard := heard + [v];
      if bufferIndex >= ChunkSize {
        assert buffer[..] == buffer[..bufferIndex];
        Flush();
        ChunksAppend(flushed, buffer[..]);
        flushed := flushed + buffer[..];
        bufferIndex := 0;
      }
      ChunksIgnoreTail(flushed, buffer[..bufferIndex]);
    }

    /** `process`: when unmuted copy the input to the output and buffer it,
        posting every full buffer; when muted write silence and touch
        nothing else. The processor stays alive. */
    method Process(input: seq<array<int>>, output: seq<array<int>>) returns (alive: bool)
      requires Valid()
      requires forall a :: a in input ==> a != buffer && a !in output
      requires forall a :: a in output ==> a != buffer
      modifies this, buffer, if |input| > 0 && |output| > 0 then {output[0]} else {}
      ensures alive && Valid() && isMuted == old(isMuted)
      ensures posted == Chunks(heard)
      ensures !(|input| > 0 && |output| > 0) || isMuted ==> heard == old(heard) && posted == old(posted) && bufferIndex == old(bufferIndex)
      ensures |input| > 0 && |output| > 0 && isMuted ==>
        forall i :: 0 <= i < output[0].Length ==> output[0][i] == 0
      ensures |input| > 0 && |output| > 0 && !isMuted ==>
        && heard == old(heard) + input[0][..]
        && (forall i :: 0 <= i < output[0].Length && i < input[0].Length ==> output[0][i] == input[0][i])
        && (forall i :: input[0].Length <= i < output[0].Length ==> output[0][i] == old(output[0][i]))
    {
      if |input| > 0 && |output| > 0 {
        assert input[0] in input && output[0] in output;
        if !isMuted {
          PassThrough(input[0], output[0]);
        } else {
          Silence(output[0]);
        }
      }
      ChunksIgnoreTail(flushed, buffer[..bufferIndex]);
      return true;
    }

    /** The unmuted branch of `process`: copy and buffer every input sample. */
    method PassThrough(inChannel: array<int>, outChannel: array<int>)
      requires Valid() && !isMuted
      requires inChannel != buffer && outChannel != buffer && inChannel != outChannel
      modifies this, buffer, outChannel
      ensures Valid() && !isMuted && posted == Chunks(heard)
      ensures heard == old(heard) + inChannel[..]
      ensures forall i :: 0 <= i < outChannel.Length && i < inChannel.Length ==> outChannel[i] == inChannel[i]
      ensures forall i :: inChannel.Length <= i < outChannel.Length ==> outChannel[i] == old(outChannel[i])
    {
      var i := 0;
      while i < inChannel.Length
        invariant 0 <= i <= inChannel.Length
        invariant Valid() && !isMuted
        invariant unchanged(inChannel)
        invariant heard == old(heard) + inChannel[..i]
        invariant forall k :: 0 <= k < i && k < outChannel.Length ==> outChannel[k] == inChannel[k]
        invariant forall k :: i <= k < outChannel.Length ==> outChannel[k] == old(outChannel[k])
      {
        if i < outChannel.Length {
          outChannel[i] := inChannel[i];
        }
        assert inChannel[..i + 1] == inChannel[..i] + [inChannel[i]];
        Take(inChannel[i]);
        i := i + 1;
      }
      assert inChannel[..i] == inChannel[..];
      ChunksIgnoreTail(flushed, buffer[..bufferIndex]);
    }

    /** The muted branch of `process`: write silence. */
    method Silence(outChannel: array<int>)
      modifies outChannel
      ensures forall i :: 0 <= i < outChannel.Length ==> outChannel[i] == 0
    {
      var i := 0;
      while i < outChannel.Length
        invariant 0 <= i <= outChannel.Length
        invariant forall k :: 0 <= k < i ==> outChannel[k] == 0
      {
        outChannel[i] := 0;
        i := i + 1;
      }
    }
  }
}
