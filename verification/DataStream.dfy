/** DataStream of data_source.go: the short history that one channel keeps between segments. */
module DataStreams {
  import opened Common

  /** The last n elements. */
  function Last<T>(x: seq<T>, n: nat): (r: seq<T>)
    requires n <= |x|
    ensures |r| == n
  {
    x[|x| - n..]
  }

  lemma LastOfLast<T>(x: seq<T>, l: nat, n: nat)
    requires n <= l <= |x|
    ensures Last(Last(x, l), n) == Last(x, n)
  {
  }

  lemma LastAppend<T>(x: seq<T>, y: seq<T>, n: nat)
    requires n <= |x|
    ensures Last(x, n) + y == Last(x + y, n + |y|)
  {
  }

  class DataStream {
    var rawData: seq<RawType>
    var firstFrameIndex: int
    var framesPerSample: int
    var samplesSeen: int

    /** This buffer is a tail of the stream x, whose first sample is frame f0, at its own frames. */
    ghost predicate Holds(f0: int, x: seq<RawType>)
      reads this
    {
      && framesPerSample == 1
      && |rawData| <= |x|
      && rawData == Last(x, |rawData|)
      && firstFrameIndex == f0 + |x| - |rawData|
    }

    constructor ()
      ensures rawData == [] && firstFrameIndex == 0 && framesPerSample == 1 && samplesSeen == 0
    {
      rawData, firstFrameIndex, framesPerSample, samplesSeen := [], 0, 1, 0;
    }

    method AppendSegment(data: seq<RawType>, segFirstFrame: int, segFramesPerSample: int)
      modifies this
      ensures rawData == old(rawData) + data
      ensures framesPerSample == segFramesPerSample
      // the frame of the first new sample is the segment's, whatever was stored before
      ensures firstFrameIndex + |old(rawData)| * framesPerSample == segFirstFrame
      ensures samplesSeen == old(samplesSeen) + |data|
    {
      var framesNowInStream := |rawData| * segFramesPerSample;
      framesPerSample := segFramesPerSample;
      firstFrameIndex := segFirstFrame - framesNowInStream;
      rawData := rawData + data;
      samplesSeen := samplesSeen + |data|;
    }

    method TrimKeepingN(n: nat) returns (kept: nat)
      modifies this`rawData, this`firstFrameIndex
      ensures kept == |rawData| && kept == (if n <= |old(rawData)| then n else |old(rawData)|)
      ensures rawData == Last(old(rawData), kept)
      // every sample that stays keeps its frame number
      ensures firstFrameIndex == old(firstFrameIndex) + (|old(rawData)| - kept) * framesPerSample
    {
      var l := |rawData|;
      if n >= l {
        return l;
      }
      rawData := rawData[l - n..l];
      var deltaFrames := (l - n) * framesPerSample;
      firstFrameIndex := firstFrameIndex + deltaFrames;
      return n;
    }
  }
}
