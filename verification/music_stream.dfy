/**
 * internal/discord/music.go, playAudioStream: the checks made before
 * streaming, and the loop that reads ffmpeg's raw PCM output in 20 ms
 * chunks into a reused byte buffer, decodes each chunk little-endian into a
 * reused buffer of 16-bit samples, Opus-encodes it and hands the frame to
 * the voice connection.
 *
 * The YouTube client, ffmpeg and the Opus encoder are oracles: the video
 * lookup result, a function from a stream URL to ffmpeg's whole output
 * (None when ffmpeg cannot be started), whether the encoder could be
 * created, and a function from 1920 samples to an Opus frame (None when
 * encoding fails).
 */
module MusicStream {
  import opened Wrappers
  import opened Text
  import opened MusicSource

  /** 960 samples per channel, 2 channels: one 20 ms frame at 48 kHz. */
  const FrameSamples: nat := 960 * 2
  /** Two bytes per sample. */
  const FrameBytes: nat := 960 * 2 * 2

  type OpusFrame = seq<Byte>

  /** The session's voice connection: absent (nil), or present and ready or not. */
  datatype VoiceLink = NoLink | Link(ready: bool)

  /** Why playAudioStream returned an error before streaming. */
  datatype StreamError = VoiceNotReady | VideoLookupFailed | NoAudioFormats | FfmpegFailed | EncoderInitFailed

  /** What a finished playback produced: the chosen format and the frames sent, in order. */
  datatype Playback = Playback(format: Format, sent: seq<OpusFrame>)

  // ---------------------------------------------------------------------------
  // Samples and frames
  // ---------------------------------------------------------------------------

  /** A little-endian byte pair read as a two's-complement int16. */
  function Int16(lo: Byte, hi: Byte): (x: int)
    ensures -32768 <= x < 32768
    ensures (x + 65536) % 65536 == lo + 256 * hi
  {
    var u := lo + 256 * hi;
    if u >= 32768 then u - 65536 else u
  }

  /** The two little-endian bytes of an int16. */
  function Int16Bytes(x: int): (b: (Byte, Byte))
    requires -32768 <= x < 32768
  {
    var u := (x + 65536) % 65536;
    (u % 256, u / 256)
  }

  lemma Int16RoundTrip(x: int)
    requires -32768 <= x < 32768
    ensures Int16(Int16Bytes(x).0, Int16Bytes(x).1) == x
  {
  }

  lemma Int16BytesRoundTrip(lo: Byte, hi: Byte)
    ensures Int16Bytes(Int16(lo, hi)) == (lo, hi)
  {
  }

  /** binary.Read into 1920 int16 values: sample k is bytes 2k and 2k+1. */
  function DecodeFrame(chunk: seq<Byte>): (samples: seq<int>)
    requires |chunk| == FrameBytes
    ensures |samples| == FrameSamples
    ensures forall k :: 0 <= k < FrameSamples ==> -32768 <= samples[k] < 32768
    ensures forall k :: 0 <= k < FrameSamples ==> samples[k] == Int16(chunk[2 * k], chunk[2 * k + 1])
  {
    seq(FrameSamples, k requires 0 <= k < FrameSamples => Int16(chunk[2 * k], chunk[2 * k + 1]))
  }

  /** The decoded frames of a stream: one per whole chunk; a trailing partial chunk yields none. */
  function Frames(stream: seq<Byte>): (frames: seq<seq<int>>)
    ensures |frames| == |stream| / FrameBytes
  {
    seq(|stream| / FrameBytes, i requires 0 <= i < |stream| / FrameBytes =>
      DecodeFrame(stream[FrameBytes * i .. FrameBytes * i + FrameBytes]))
  }

  /** The frames handed to the voice connection: every encoded frame, in order; a frame that fails to encode is skipped. */
  function EncodedFrames(frames: seq<seq<int>>, encode: seq<int> -> Option<OpusFrame>): (sent: seq<OpusFrame>)
    ensures |sent| <= |frames|
  {
    if frames == [] then []
    else
      var last := frames[|frames| - 1];
      EncodedFrames(frames[..|frames| - 1], encode) + (if encode(last).Some? then [encode(last).value] else [])
  }

  /** Frames of whole chunks followed by more chunks are the frames of each part, in stream order. */
  lemma FramesAppend(a: seq<Byte>, b: seq<Byte>)
    requires |a| % FrameBytes == 0
    ensures Frames(a + b) == Frames(a) + Frames(b)
  {
    var n := |a| / FrameBytes;
    assert |a| == FrameBytes * n;
    assert (|a| + |b|) / FrameBytes == n + |b| / FrameBytes;
    forall i | 0 <= i < |Frames(a + b)|
      ensures Frames(a + b)[i] == (Frames(a) + Frames(b))[i]
    {
      if i < n {
        assert (a + b)[FrameBytes * i .. FrameBytes * i + FrameBytes] == a[FrameBytes * i .. FrameBytes * i + FrameBytes];
      } else {
        var j := i - n;
        assert FrameBytes * i == |a| + FrameBytes * j;
        assert (a + b)[FrameBytes * i .. FrameBytes * i + FrameBytes] == b[FrameBytes * j .. FrameBytes * j + FrameBytes];
      }
    }
  }

  /** A trailing chunk shorter than 3840 bytes is never decoded. */
  lemma PartialChunkDropped(a: seq<Byte>, tail: seq<Byte>)
    requires |a| % FrameBytes == 0 && |tail| < FrameBytes
    ensures Frames(a + tail) == Frames(a)
  {
    FramesAppend(a, tail);
    assert Frames(tail) == [];
  }

  /** Encoding distributes over concatenation: frames are sent in the order they were read. */
  lemma {:induction false} EncodedFramesAppend(a: seq<seq<int>>, b: seq<seq<int>>, encode: seq<int> -> Option<OpusFrame>)
    ensures EncodedFrames(a + b, encode) == EncodedFrames(a, encode) + EncodedFrames(b, encode)
    decreases |b|
  {
    if b == [] {
      assert a + b == a;
    } else {
      var b' := b[..|b| - 1];
      assert (a + b)[..|a + b| - 1] == a + b';
      assert (a + b)[|a + b| - 1] == b[|b| - 1];
      EncodedFramesAppend(a, b', encode);
    }
  }

  /** With an encoder that never fails, every whole chunk is sent. */
  lemma {:induction false} EncodedFramesAllSent(frames: seq<seq<int>>, encode: seq<int> -> Option<OpusFrame>)
    requires forall k :: 0 <= k < |frames| ==> encode(frames[k]).Some?
    ensures |EncodedFrames(frames, encode)| == |frames|
    decreases |frames|
  {
    if frames != [] {
      EncodedFramesAllSent(frames[..|frames| - 1], encode);
    }
  }

  lemma FrameAt(stream: seq<Byte>, k: nat)
    requires FrameBytes * k + FrameBytes <= |stream|
    ensures k < |Frames(stream)|
    ensures Frames(stream)[k] == DecodeFrame(stream[FrameBytes * k .. FrameBytes * k + FrameBytes])
  {
    assert FrameBytes * (k + 1) <= |stream|;
    assert k + 1 <= |stream| / FrameBytes;
  }

  lemma LastFrame(stream: seq<Byte>, k: nat)
    requires FrameBytes * k <= |stream| < FrameBytes * k + FrameBytes
    ensures k == |stream| / FrameBytes
  {
  }

  lemma EncodedFramesStep(frames: seq<seq<int>>, k: nat, encode: seq<int> -> Option<OpusFrame>)
    requires k < |frames|
    ensures EncodedFrames(frames[..k + 1], encode) ==
      EncodedFrames(frames[..k], encode) + (if encode(frames[k]).Some? then [encode(frames[k]).value] else [])
  {
    assert frames[..k + 1][..k] == frames[..k];
  }

  // ---------------------------------------------------------------------------
  // The read / decode / encode loop over reused buffers
  // ---------------------------------------------------------------------------

  /** How io.ReadFull ended: the buffer filled, no byte left (EOF), or some but not enough. */
  datatype ReadStatus = Full | Eof | UnexpectedEof

  /** io.ReadFull from ffmpeg's output at `offset` into `buf`. */
  method ReadFull(stream: seq<Byte>, offset: nat, buf: array<Byte>) returns (n: nat, status: ReadStatus)
    requires offset <= |stream|
    modifies buf
    ensures n == if |stream| - offset < buf.Length then |stream| - offset else buf.Length
    ensures buf[..n] == stream[offset .. offset + n]
    ensures status == if n == buf.Length then Full else if n == 0 then Eof else UnexpectedEof
  {
    n := if |stream| - offset < buf.Length then |stream| - offset else buf.Length;
    var i := 0;
    while i < n
      invariant 0 <= i <= n
      invariant buf[..i] == stream[offset .. offset + i]
    {
      buf[i] := stream[offset + i];
      i := i + 1;
    }
    status := if n == buf.Length then Full else if n == 0 then Eof else UnexpectedEof;
  }

  /** binary.Read, little-endian, of the byte buffer into the sample buffer. */
  method DecodeInto(buf: array<Byte>, samples: array<int>)
    requires buf.Length == FrameBytes && samples.Length == FrameSamples
    modifies samples
    ensures samples[..] == DecodeFrame(buf[..])
  {
    var k := 0;
    while k < FrameSamples
      invariant 0 <= k <= FrameSamples
      invariant forall j :: 0 <= j < k ==> samples[j] == Int16(buf[2 * j], buf[2 * j + 1])
    {
      samples[k] := Int16(buf[2 * k], buf[2 * k + 1]);
      k := k + 1;
    }
  }

  /**
   * The streaming loop: read a whole chunk or stop, decode it, encode it,
   * and send the frame when encoding succeeded.
   */
  method StreamPcm(stream: seq<Byte>, encode: seq<int> -> Option<OpusFrame>) returns (sent: seq<OpusFrame>)
    ensures sent == EncodedFrames(Frames(stream), encode)
  {
    var pcmBuf := new Byte[FrameBytes];
    var pcmInt16 := new int[FrameSamples];
    var offset := 0;
    ghost var k := 0;
    sent := [];
    while true
      invariant offset == FrameBytes * k && offset <= |stream|
      invariant k <= |stream| / FrameBytes
      invariant sent == EncodedFrames(Frames(stream)[..k], encode)
      decreases |stream| - offset
    {
      var n, status := ReadFull(stream, offset, pcmBuf);
      if status != Full {
        break;
      }
      assert pcmBuf[..] == stream[offset .. offset + FrameBytes];
      DecodeInto(pcmBuf, pcmInt16);
      FrameAt(stream, k);
      var frame := encode(pcmInt16[..]);
      EncodedFramesStep(Frames(stream), k, encode);
      if frame.Some? {
        sent := sent + [frame.value];
      }
      offset := offset + FrameBytes;
      k := k + 1;
    }
    LastFrame(stream, k);
    assert Frames(stream)[..k] == Frames(stream);
  }

  /** The voice connection is ready and the video lookup succeeded. */
  predicate HasVideo(voice: VoiceLink, video: Result<Video, string>) {
    voice == Link(true) && video.Success?
  }

  /** The formats of a looked-up video that carry audio. */
  function AudioFormats(video: Result<Video, string>): seq<Format>
    requires video.Success?
  {
    WithAudioChannels(video.value.formats)
  }

  /**
   * playAudioStream with the Discord-side waits left out: the error checks in
   * the source's order, the format choice, then the streaming loop over
   * ffmpeg's output for the chosen format's URL.
   */
  method PlayAudioStream(
    voice: VoiceLink,
    video: Result<Video, string>,
    ffmpeg: string -> Option<seq<Byte>>,
    encoderReady: bool,
    encode: seq<int> -> Option<OpusFrame>)
    returns (r: Result<Playback, StreamError>)
    ensures r == Failure(VoiceNotReady) <==> voice != Link(true)
    ensures r == Failure(VideoLookupFailed) <==> voice == Link(true) && video.Failure?
    ensures r == Failure(NoAudioFormats) <==> HasVideo(voice, video) && AudioFormats(video) == []
    ensures r == Failure(FfmpegFailed) <==>
      HasVideo(voice, video) && AudioFormats(video) != [] && ffmpeg(SelectFormat(AudioFormats(video)).value.url).None?
    ensures r == Failure(EncoderInitFailed) <==>
      HasVideo(voice, video) && AudioFormats(video) != [] && ffmpeg(SelectFormat(AudioFormats(video)).value.url).Some?
      && !encoderReady
    ensures r.Success? <==>
      HasVideo(voice, video) && AudioFormats(video) != [] && ffmpeg(SelectFormat(AudioFormats(video)).value.url).Some?
      && encoderReady
    ensures r.Success? ==>
      && Some(r.value.format) == SelectFormat(AudioFormats(video))
      && r.value.sent == EncodedFrames(Frames(ffmpeg(r.value.format.url).value), encode)
  {
    if voice != Link(true) {
      return Failure(VoiceNotReady);
    }
    if video.Failure? {
      return Failure(VideoLookupFailed);
    }
    var formats := WithAudioChannels(video.value.formats);
    if formats == [] {
      return Failure(NoAudioFormats);
    }
    var format := SelectFormat(formats).value;
    var output := ffmpeg(format.url);
    if output.None? {
      return Failure(FfmpegFailed);
    }
    if !encoderReady {
      return Failure(EncoderInitFailed);
    }
    var sent := StreamPcm(output.value, encode);
    return Success(Playback(format, sent));
  }
}
