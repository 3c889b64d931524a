/**
 * The recording session of Source/VideoEncoder.cpp: the FFmpeg/CUDA calls
 * are not modelled; each one is a step whose result is a parameter (the
 * "env" datatypes below) and whose call is recorded in the ghost `trace`.
 * Objects the encoder owns are modelled as "present" flags.
 */
module Encoder {

  const StreamFrameRate := 30
  const BitRate := 400000
  const GopSize := 12
  /** AVERROR(EAGAIN): the encoder needs more input. */
  const ErrAgain := -11
  /** AVERROR_EOF = -FFERRTAG('E','O','F',' '): the encoder is fully drained. */
  const ErrEof := -0x2046_4F45
  const CudaSuccess := 0

  /** The library calls the encoder makes, in the order it makes them. */
  datatype Event =
    | AllocOutput(byName: bool)           // avformat_alloc_output_context2, by extension or as "mpeg"
    | FindEncoder                         // avcodec_find_encoder_by_name("h264_nvenc")
    | AllocPacket
    | NewStream
    | AllocCodecContext
    | CreateHwDevice                      // av_hwdevice_ctx_create(CUDA)
    | InitHwFrames(width: int, height: int)
    | RegisterTexture                     // cuGraphicsGLRegisterImage
    | ReleaseHwBuffers                    // av_buffer_unref on the device and frame contexts
    | DestroyCudaContext
    | OpenCodec                           // avcodec_open2
    | AllocFrame                          // av_frame_alloc + av_hwframe_get_buffer
    | CopyStreamParams
    | OpenFile                            // avio_open
    | WriteHeader
    | MakeWritable
    | CopyTexture                         // map, copy and unmap the GL texture through CUDA
    | SendFrame(pts: int)
    | SendFlush                           // avcodec_send_frame with a null frame
    | WritePacket(streamIndex: int)       // av_interleaved_write_frame
    | WriteTrailer
    | FreeCodecState                      // codec context, frames and packet
    | UnregisterTexture
    | CloseFile                           // avio_closep
    | FreeOutput                          // avformat_free_context

  /** The calls that only a finishing session makes. */
  predicate IsTeardown(e: Event) {
    e.SendFlush? || e.WriteTrailer? || e.FreeCodecState? || e.UnregisterTexture? || e.CloseFile? || e.FreeOutput?
  }

  /** A run of calls that frees nothing the session owns. */
  predicate NoTeardown(calls: seq<Event>) {
    forall e :: e in calls ==> !IsTeardown(e)
  }

  /** The fields of AVOutputFormat that the encoder consults. */
  datatype OutputFormat = OutputFormat(videoCodec: bool, noFile: bool, globalHeader: bool)

  datatype CodecConfig = CodecConfig(
    width: int, height: int, bitRate: int, frameRate: int, gopSize: int, globalHeader: bool)

  /** Something the encoder owns: absent (null) or present with its contents. */
  datatype Option<T> = None | Some(value: T)

  /**
   * The AVCodecContext: its video settings (absent while they are the library's
   * defaults), whether it is open, and whether the CUDA contexts are attached.
   */
  datatype Codec = Codec(config: Option<CodecConfig>, isOpen: bool, hwAttached: bool)

  /** The OutputStream struct, reduced to the members the encoder uses. */
  datatype OutputStream = OutputStream(
    stream: bool,          // st is non-null
    streamIndex: int,      // st->index
    enc: Option<Codec>,
    nextPts: int,
    frame: bool,           // frame is non-null
    packet: bool)          // tmp_pkt is non-null

  /** The size given to the CUDA frames context. */
  datatype FrameSize = FrameSize(width: int, height: int)

  /** `enc && avcodec_is_open(enc)`. */
  predicate CodecOpen(st: OutputStream) {
    st.enc.Some? && st.enc.value.isOpen
  }

  /** Results of the library calls made by initialiseVideo. */
  datatype InitEnv = InitEnv(
    encoderFound: bool, packetAllocated: bool, streamCreated: bool, contextAllocated: bool,
    isVideo: bool, hwDeviceRet: int, hwFramesRet: int, registerRes: int)

  /** Results of the library calls made by openVideo. */
  datatype OpenEnv = OpenEnv(openRet: int, frameAllocated: bool, bufferRet: int)

  /** Results of the library calls made by startRecordingSession. */
  datatype StartEnv = StartEnv(
    byExtension: bool, byName: bool, format: OutputFormat, init: InitEnv, open: OpenEnv,
    fileRet: int, headerRet: int)

  /** One avcodec_receive_packet result, and the write result if it produced a packet. */
  datatype Receive = Receive(ret: int, writeRet: int)

  /** Results of the library calls made by one addVideoFrame. */
  datatype FrameEnv = FrameEnv(writableRet: int, sendRet: int, receives: seq<Receive>)

  /** Results of the library calls made by the flush in cleanup. */
  datatype FlushEnv = FlushEnv(sendRet: int, receives: seq<Receive>)

  datatype FrameArg = Frame(pts: int) | Flush

  /** The drain loop leaves at a receive error (EAGAIN and EOF included) or a failed write. */
  predicate Stopping(x: Receive) {
    x.ret < 0 || x.writeRet < 0
  }

  /** The encoder eventually reports something that ends the drain loop. */
  predicate Drains(rs: seq<Receive>) {
    exists i :: 0 <= i < |rs| && Stopping(rs[i])
  }

  /** The receive at which the drain loop stops. */
  function StopIndex(rs: seq<Receive>): (k: nat)
    requires Drains(rs)
    ensures k < |rs| && Stopping(rs[k])
    ensures forall j :: 0 <= j < k ==> !Stopping(rs[j])
  {
    if Stopping(rs[0]) then 0
    else
      var i :| 0 <= i < |rs| && Stopping(rs[i]);
      assert 0 <= i - 1 < |rs[1..]| && Stopping(rs[1..][i - 1]);
      1 + StopIndex(rs[1..])
  }

  /** Packets handed to the muxer: all before the stop, and the stopping one if its write failed. */
  function WrittenCount(rs: seq<Receive>): nat
    requires Drains(rs)
  {
    var k := StopIndex(rs);
    if rs[k].ret >= 0 then k + 1 else k
  }

  function SendCall(frame: FrameArg): Event {
    match frame
    case Frame(pts) => SendFrame(pts)
    case Flush => SendFlush
  }

  /** The calls made by `encode` on an active session. */
  ghost function EncodeCalls(frame: FrameArg, sendRet: int, rs: seq<Receive>, streamIndex: int): seq<Event>
    requires Drains(rs)
  {
    [SendCall(frame)] + if sendRet < 0 then [] else seq(WrittenCount(rs), _ => WritePacket(streamIndex))
  }


  /**
   * `x % 2 == 0 ? x : x - 1`. The test is the same under C's truncating `%`
   * and Dafny's Euclidean `%`: both give zero exactly for even numbers.
   */
  function EvenFloor(n: int): (r: int)
    ensures r % 2 == 0 && r <= n < r + 2
  {
    if n % 2 == 0 then n else n - 1
  }

  /** The settings initialiseVideo gives a video codec context. */
  function VideoConfig(width: int, height: int, globalHeader: bool): (c: CodecConfig)
    ensures c.width % 2 == 0 && c.width <= width < c.width + 2
    ensures c.height % 2 == 0 && c.height <= height < c.height + 2
    ensures c.bitRate == BitRate && c.frameRate == StreamFrameRate && c.gopSize == GopSize
    ensures c.globalHeader == globalHeader
  {
    CodecConfig(EvenFloor(width), EvenFloor(height), BitRate, StreamFrameRate, GopSize, globalHeader)
  }

  /** initialiseVideo got as far as creating the stream, which resets next_pts. */
  predicate StreamCreated(env: InitEnv) {
    env.encoderFound && env.packetAllocated && env.streamCreated
  }

  /** initialiseVideo got as far as allocating a fresh codec context. */
  predicate ContextCreated(env: InitEnv) {
    StreamCreated(env) && env.contextAllocated
  }

  /** initialiseVideo got as far as configuring the codec for video. */
  predicate Configured(env: InitEnv) {
    ContextCreated(env) && env.isVideo
  }

  /** initialiseVideo returns true. */
  predicate InitSucceeds(env: InitEnv) {
    Configured(env) && env.hwDeviceRet >= 0 && env.hwFramesRet >= 0
  }

  /** An output context is allocated, by file extension or by the "mpeg" fallback. */
  predicate ContextAllocated(env: StartEnv) {
    env.byExtension || env.byName
  }

  /** startRecordingSession reaches initialiseVideo. */
  predicate SetsUpVideo(env: StartEnv) {
    ContextAllocated(env) && env.format.videoCodec
  }

  /** avcodec_open2 succeeds on the stream's codec context. */
  predicate Opens(st: OutputStream, env: OpenEnv) {
    st.enc.Some? && env.openRet >= 0
  }

  /** The calls made by the CUDA part of initialiseVideo. */
  ghost function HwCalls(env: InitEnv, width: int, height: int): (r: seq<Event>)
    ensures NoTeardown(r) && |r| > 0 && r[0] == CreateHwDevice
    ensures env.hwDeviceRet >= 0 <==> InitHwFrames(width, height) in r
  {
    if env.hwDeviceRet < 0 then [CreateHwDevice]
    else if env.hwFramesRet < 0 then [CreateHwDevice, InitHwFrames(width, height), ReleaseHwBuffers]
    else if env.registerRes != CudaSuccess then
      [CreateHwDevice, InitHwFrames(width, height), RegisterTexture, ReleaseHwBuffers, DestroyCudaContext]
    else [CreateHwDevice, InitHwFrames(width, height), RegisterTexture]
  }

  /** The calls made by initialiseVideo before the CUDA part, up to its first failure exit. */
  ghost function StreamCalls(env: InitEnv): (r: seq<Event>)
    ensures NoTeardown(r) && |r| > 0 && r[0] == FindEncoder
  {
    if !env.encoderFound then [FindEncoder]
    else if !env.packetAllocated then [FindEncoder, AllocPacket]
    else if !env.streamCreated then [FindEncoder, AllocPacket, NewStream]
    else [FindEncoder, AllocPacket, NewStream, AllocCodecContext]
  }

  /** The calls made by initialiseVideo. */
  ghost function InitCalls(env: InitEnv, width: int, height: int): (r: seq<Event>)
    ensures NoTeardown(r) && |r| > 0 && r[0] == FindEncoder
    ensures Configured(env) && env.hwDeviceRet >= 0 <==> InitHwFrames(width, height) in r
  {
    if !ContextCreated(env) || !env.isVideo then StreamCalls(env)
    else StreamCalls(env) + HwCalls(env, width, height)
  }

  /** The calls made by openVideo on a context that is (`hasContext`) or is not allocated. */
  ghost function OpenCalls(env: OpenEnv, hasContext: bool): (r: seq<Event>)
    ensures NoTeardown(r) && |r| > 0 && r[0] == OpenCodec
  {
    if !hasContext || env.openRet < 0 then [OpenCodec]
    else if !env.frameAllocated || env.bufferRet < 0 then [OpenCodec, AllocFrame]
    else [OpenCodec, AllocFrame, CopyStreamParams]
  }

  /** The calls allocating the output context: by file extension, then as "mpeg". */
  function OutputCalls(env: StartEnv): seq<Event> {
    if env.byExtension then [AllocOutput(false)] else [AllocOutput(false), AllocOutput(true)]
  }

  /** Opening the file (unless the format needs none) and writing the header succeed. */
  predicate HeaderWritten(env: StartEnv) {
    (env.format.noFile || env.fileRet >= 0) && env.headerRet >= 0
  }

  /** The calls opening the file, unless the format needs none, and writing the header. */
  function HeaderCalls(env: StartEnv): (r: seq<Event>)
    ensures NoTeardown(r) && |r| > 0
  {
    if env.format.noFile then [WriteHeader]
    else if env.fileRet < 0 then [OpenFile]
    else [OpenFile, WriteHeader]
  }

  /**
   * The calls of a start that leaves the session active: allocate the output
   * context, set up the video stream when the format has a video codec, open
   * the codec, open the file unless the format needs none, write the header.
   */
  ghost function SessionOpenCalls(env: StartEnv, width: int, height: int): seq<Event> {
    OutputCalls(env)
    + (if env.format.videoCodec then InitCalls(env.init, width, height) else [])
    + OpenCalls(env.open, true)
    + HeaderCalls(env)
  }

  /** The calls cleanup makes after the flush: trailer, frees, close, free. */
  function TeardownCalls(haveVideo: bool, noFile: bool): (r: seq<Event>)
    ensures |r| >= 2 && r[0] == WriteTrailer && r[|r| - 1] == FreeOutput
    ensures CloseFile in r <==> !noFile
    ensures forall e :: e in r ==> IsTeardown(e) || e.ReleaseHwBuffers?
  {
    [WriteTrailer]
    + (if haveVideo then [FreeCodecState, ReleaseHwBuffers, UnregisterTexture] else [])
    + (if noFile then [] else [CloseFile])
    + [FreeOutput]
  }

  /** The timestamps 0, 1, ..., n - 1, in order. */
  function Upto(n: nat): (r: seq<int>)
    ensures |r| == n
  {
    if n == 0 then [] else Upto(n - 1) + [n - 1]
  }

  /** Position `i` of Upto(n) holds `i`: the stamps have no gap and no repeat. */
  lemma {:induction false} UptoValues(n: nat)
    ensures forall i :: 0 <= i < n ==> Upto(n)[i] == i
  {
    if n > 0 {
      UptoValues(n - 1);
      assert forall i :: 0 <= i < n - 1 ==> Upto(n)[i] == Upto(n - 1)[i];
    }
  }

  /**
   * A session that becomes active first allocated the output context, opened
   * the codec, and wrote the header last, without freeing anything on the way.
   */
  lemma SessionOpenOrder(env: StartEnv, width: int, height: int)
    requires HeaderWritten(env)
    ensures var r := SessionOpenCalls(env, width, height);
      && |r| >= 3 && r[0] == AllocOutput(false) && r[|r| - 1] == WriteHeader
      && OpenCodec in r && NoTeardown(r)
  {
    var video := if env.format.videoCodec then InitCalls(env.init, width, height) else [];
    var open := OpenCalls(env.open, true);
    var r := OutputCalls(env) + video + open + HeaderCalls(env);
    assert r == SessionOpenCalls(env, width, height);
    assert open[0] in r by {
      assert r[|OutputCalls(env)| + |video|] == open[0];
    }
    forall e | e in r
      ensures !IsTeardown(e)
    {
      assert e in OutputCalls(env) || e in video || e in open || e in HeaderCalls(env);
    }
  }

  class VideoEncoder {
    var fileName: string
    var width: int
    var height: int
    var active: bool
    var haveVideo: bool
    var encodeVideo: bool
    /** oc, with its oformat. */
    var output: Option<OutputFormat>
    var videoSt: OutputStream
    var hwDevice: bool                // avBufferDevice is non-null
    var hwFrames: Option<FrameSize>   // avBufferFrame
    var textureRegistered: bool       // cudaTextureResource

    /** Every library call made so far. */
    ghost var trace: seq<Event>
    /** The presentation timestamps stamped on frames since next_pts was last reset. */
    ghost var stamped: seq<int>

    /** Frames are stamped 0, 1, 2, ... since the last reset, with no gap. */
    ghost predicate PtsValid()
      reads this
    {
      videoSt.nextPts >= 0 && stamped == Upto(videoSt.nextPts)
    }

    /**
     * The object invariant: a codec context exists only once have_video is
     * set, one that outlives an inactive session has stamped no frame since
     * its stream was created, and an active session has an output context
     * and an open codec.
     */
    ghost predicate Valid()
      reads this
    {
      && PtsValid()
      && (videoSt.enc.Some? ==> haveVideo)
      && (!active && videoSt.enc.Some? ==> videoSt.nextPts == 0)
      && (active ==> output.Some? && CodecOpen(videoSt))
    }

    /** The GL texture the constructor creates is external and not modelled. */
    constructor (file: string, w: int, h: int)
      ensures Valid() && !active && !haveVideo && trace == []
      ensures fileName == file && width == w && height == h
      ensures output == None && videoSt.enc == None && videoSt.nextPts == 0
    {
      fileName, width, height := file, w, h;
      active, haveVideo, encodeVideo := false, false, false;
      output := None;
      videoSt := OutputStream(false, 0, None, 0, false, false);
      hwDevice, hwFrames, textureRegistered := false, None, false;
      trace, stamped := [], [];
    }

    /**
     * initialiseVideo: find the encoder, allocate the packet, the stream and
     * the codec context, give the codec even dimensions, then set up CUDA.
     * Its one caller runs it on an inactive session with an output context.
     */
    method InitialiseVideo(env: InitEnv) returns (ok: bool, ghost calls: seq<Event>)
      requires PtsValid() && output.Some?
      modifies this`videoSt, this`stamped, this`hwDevice, this`hwFrames, this`textureRegistered
      ensures PtsValid()
      ensures ok == InitSucceeds(env) && calls == InitCalls(env, width, height)
      ensures StreamCreated(env) ==> videoSt.stream && videoSt.streamIndex == 0 && videoSt.nextPts == 0
      ensures !StreamCreated(env) ==> videoSt.nextPts == old(videoSt.nextPts)
      ensures ContextCreated(env) ==> videoSt.enc.Some? && !videoSt.enc.value.isOpen
      ensures !ContextCreated(env) ==> videoSt.enc == old(videoSt.enc)
      ensures Configured(env) ==> videoSt.enc.value.config == Some(VideoConfig(width, height, output.value.globalHeader))
      ensures ok ==> videoSt.enc.value.hwAttached == (env.registerRes == CudaSuccess)
      ensures ok && env.registerRes == CudaSuccess ==> hwDevice && hwFrames == Some(FrameSize(width, height))
      ensures ok ==> textureRegistered == (env.registerRes == CudaSuccess)
      ensures ok && env.registerRes != CudaSuccess ==> !hwDevice && hwFrames == None
      ensures videoSt.frame == old(videoSt.frame)
    {
      var created;
      created, calls := CreateStream(env);
      ok := false;
      if !created { return; }
      // Only video is supported.
      if !env.isVideo { return; }
      videoSt := videoSt.(enc := Some(Codec(Some(VideoConfig(width, height, output.value.globalHeader)), false, false)));
      ghost var hwCalls;
      ok, hwCalls := AttachHardware(env);
      calls := calls + hwCalls;
    }

    /**
     * The first part of initialiseVideo: find the encoder, allocate the packet
     * and the stream (which restarts next_pts), then a fresh codec context.
     */
    method CreateStream(env: InitEnv) returns (created: bool, ghost calls: seq<Event>)
      requires PtsValid()
      modifies this`videoSt, this`stamped
      ensures PtsValid()
      ensures created == ContextCreated(env) && calls == StreamCalls(env)
      ensures StreamCreated(env) ==> videoSt.stream && videoSt.streamIndex == 0 && videoSt.nextPts == 0
      ensures !StreamCreated(env) ==> videoSt.nextPts == old(videoSt.nextPts)
      ensures created ==> videoSt.enc == Some(Codec(None, false, false))
      ensures !created ==> videoSt.enc == old(videoSt.enc)
      ensures videoSt.frame == old(videoSt.frame)
    {
      calls := [FindEncoder];
      if !env.encoderFound { return false, calls; }
      calls := calls + [AllocPacket];
      videoSt := videoSt.(packet := env.packetAllocated);
      if !env.packetAllocated { return false, calls; }
      calls := calls + [NewStream];
      videoSt := videoSt.(stream := env.streamCreated);
      if !env.streamCreated { return false, calls; }
      // The first stream of a freshly allocated output context.
      videoSt := videoSt.(streamIndex := 0, nextPts := 0);
      stamped := [];
      calls := calls + [AllocCodecContext];
      if !env.contextAllocated { return false, calls; }
      videoSt := videoSt.(enc := Some(Codec(None, false, false)));
      return true, calls;
    }

    /**
     * The CUDA part of initialiseVideo: device context, frames context at the
     * unrounded size, texture registration. After a failed registration the
     * source releases both buffers and then takes new references to them
     * through null handles; the model attaches nothing at that point and
     * lets initialiseVideo report success, as its code path does.
     */
    method AttachHardware(env: InitEnv) returns (ok: bool, ghost calls: seq<Event>)
      requires videoSt.enc.Some?
      modifies this`videoSt, this`hwDevice, this`hwFrames, this`textureRegistered
      ensures ok == (env.hwDeviceRet >= 0 && env.hwFramesRet >= 0)
      ensures calls == HwCalls(env, width, height)
      ensures !ok ==> videoSt == old(videoSt)
      ensures ok ==> videoSt == old(videoSt).(enc := Some(old(videoSt).enc.value.(hwAttached := env.registerRes == CudaSuccess)))
      ensures ok ==> textureRegistered == (env.registerRes == CudaSuccess)
      ensures ok && env.registerRes == CudaSuccess ==> hwDevice && hwFrames == Some(FrameSize(width, height))
      ensures ok && env.registerRes != CudaSuccess ==> !hwDevice && hwFrames == None
      ensures env.hwDeviceRet >= 0 && env.hwFramesRet < 0 ==> !hwDevice && hwFrames == None
      ensures env.hwDeviceRet < 0 ==> unchanged(this`hwDevice, this`hwFrames, this`textureRegistered)
    {
      calls := [CreateHwDevice];
      if env.hwDeviceRet < 0 { return false, calls; }
      hwDevice := true;
      calls := calls + [InitHwFrames(width, height)];
      hwFrames := Some(FrameSize(width, height));
      if env.hwFramesRet < 0 {
        hwDevice, hwFrames := false, None;
        calls := calls + [ReleaseHwBuffers];
        return false, calls;
      }
      calls := calls + [RegisterTexture];
      textureRegistered := env.registerRes == CudaSuccess;
      if !textureRegistered {
        hwDevice, hwFrames := false, None;
        calls := calls + [ReleaseHwBuffers, DestroyCudaContext];
      }
      videoSt := videoSt.(enc := Some(videoSt.enc.value.(hwAttached := hwDevice && hwFrames.Some?)));
      ok := true;
    }

    /**
     * openVideo: open the codec, allocate the reusable hardware frame and copy
     * the stream parameters; every failure just returns. A codec context that
     * was never allocated counts as one that fails to open.
     */
    method OpenVideo(env: OpenEnv) returns (ghost calls: seq<Event>)
      modifies this`videoSt
      ensures calls == OpenCalls(env, old(videoSt).enc.Some?)
      ensures !Opens(old(videoSt), env) ==> videoSt == old(videoSt)
      ensures Opens(old(videoSt), env) ==>
                videoSt == old(videoSt).(enc := Some(old(videoSt).enc.value.(isOpen := true)),
                                         frame := env.frameAllocated && env.bufferRet >= 0)
    {
      calls := [OpenCodec];
      if videoSt.enc.None? || env.openRet < 0 { return; }
      videoSt := videoSt.(enc := Some(videoSt.enc.value.(isOpen := true)));
      calls := calls + [AllocFrame];
      // allocFrame frees the frame again when its buffer cannot be allocated.
      videoSt := videoSt.(frame := env.frameAllocated && env.bufferRet >= 0);
      if !videoSt.frame { return; }
      // A failure to copy the stream parameters only returns early.
      calls := calls + [CopyStreamParams];
    }

    /**
     * startRecordingSession. Reproduces the source's quirks: `return 1` when no
     * output context could be allocated reports success with nothing active;
     * the result of initialiseVideo is ignored; have_video is never reset; the
     * cleanup after a failed codec open does nothing because the session is
     * not active there, and the later failures free nothing either.
     */
    method StartRecordingSession(env: StartEnv) returns (ok: bool, ghost calls: seq<Event>)
      requires Valid()
      modifies this`active, this`haveVideo, this`encodeVideo, this`output, this`videoSt, this`stamped
      modifies this`hwDevice, this`hwFrames, this`textureRegistered, this`trace
      ensures Valid()
      ensures trace == old(trace) + calls && NoTeardown(calls)
      ensures old(active) ==> !ok && calls == [] && unchanged(this)
      ensures !old(active) ==> (ok <==> active || !ContextAllocated(env))
      ensures !old(active) ==> |calls| > 0 && calls[0] == AllocOutput(false)
      ensures !old(active) ==> output == (if ContextAllocated(env) then Some(env.format) else None)
      ensures !old(active) ==> haveVideo == (old(haveVideo) || SetsUpVideo(env))
      ensures !old(active) && SetsUpVideo(env) && ContextCreated(env.init) && env.open.openRet >= 0 ==>
                CodecOpen(videoSt) && videoSt.frame == (env.open.frameAllocated && env.open.bufferRet >= 0)
      ensures !old(active) && !ContextAllocated(env) ==> !active && calls == [AllocOutput(false), AllocOutput(true)]
      ensures !old(active) && active ==> HeaderWritten(env) && calls == SessionOpenCalls(env, width, height)
      ensures !old(active) && active ==> videoSt.nextPts == 0 && stamped == []
      ensures !old(active) && ContextAllocated(env) && CodecOpen(videoSt) ==> (active <==> HeaderWritten(env))
      ensures !old(active) && SetsUpVideo(env) && StreamCreated(env.init) ==> videoSt.nextPts == 0
      ensures !old(active) && SetsUpVideo(env) && Configured(env.init) ==>
                videoSt.enc.Some? && videoSt.enc.value.config == Some(VideoConfig(width, height, env.format.globalHeader))
      ensures !old(active) && SetsUpVideo(env) && InitSucceeds(env.init) && env.init.registerRes == CudaSuccess ==>
                hwFrames == Some(FrameSize(width, height))
    {
      if active { return false, []; }
      ok, calls := OpenSession(env);
      trace := trace + calls;
    }

    /** startRecordingSession past its check that no session is active. */
    method OpenSession(env: StartEnv) returns (ok: bool, ghost calls: seq<Event>)
      requires Valid() && !active
      modifies this`active, this`haveVideo, this`encodeVideo, this`output, this`videoSt, this`stamped
      modifies this`hwDevice, this`hwFrames, this`textureRegistered, this`trace
      ensures Valid() && NoTeardown(calls) && trace == old(trace)
      ensures ok <==> active || !ContextAllocated(env)
      ensures |calls| > 0 && calls[0] == AllocOutput(false)
      ensures output == if ContextAllocated(env) then Some(env.format) else None
      ensures haveVideo == (old(haveVideo) || SetsUpVideo(env))
      ensures SetsUpVideo(env) && ContextCreated(env.init) && env.open.openRet >= 0 ==>
                CodecOpen(videoSt) && videoSt.frame == (env.open.frameAllocated && env.open.bufferRet >= 0)
      ensures !ContextAllocated(env) ==> !active && calls == [AllocOutput(false), AllocOutput(true)]
      ensures active ==> HeaderWritten(env) && calls == SessionOpenCalls(env, width, height)
      ensures active ==> videoSt.nextPts == 0 && stamped == []
      ensures ContextAllocated(env) && CodecOpen(videoSt) ==> (active <==> HeaderWritten(env))
      ensures SetsUpVideo(env) && StreamCreated(env.init) ==> videoSt.nextPts == 0
      ensures SetsUpVideo(env) && Configured(env.init) ==>
                videoSt.enc.Some? && videoSt.enc.value.config == Some(VideoConfig(width, height, env.format.globalHeader))
      ensures SetsUpVideo(env) && InitSucceeds(env.init) && env.init.registerRes == CudaSuccess ==>
                hwFrames == Some(FrameSize(width, height))
    {
      calls := AllocOutputContext(env);
      if output.None? {
        return true, calls;
      }
      ghost var openCalls;
      ok, openCalls := SetUpAndOpen(env);
      calls := calls + openCalls;
    }

    /**
     * startRecordingSession once the output context is allocated: prepare the
     * video, leave (through a cleanup that does nothing) when the codec is not
     * open, otherwise open the file and write the header.
     */
    method SetUpAndOpen(env: StartEnv) returns (ok: bool, ghost calls: seq<Event>)
      requires Valid() && !active && output == Some(env.format)
      modifies this`active, this`haveVideo, this`encodeVideo, this`output, this`videoSt, this`stamped
      modifies this`hwDevice, this`hwFrames, this`textureRegistered, this`trace
      ensures Valid() && NoTeardown(calls) && trace == old(trace)
      ensures ok == active
      ensures output == old(output)
      ensures haveVideo == (old(haveVideo) || env.format.videoCodec)
      ensures env.format.videoCodec && ContextCreated(env.init) && env.open.openRet >= 0 ==>
                CodecOpen(videoSt) && videoSt.frame == (env.open.frameAllocated && env.open.bufferRet >= 0)
      ensures active ==>
                && HeaderWritten(env)
                && calls == (if env.format.videoCodec then InitCalls(env.init, width, height) else [])
                            + OpenCalls(env.open, true) + HeaderCalls(env)
      ensures CodecOpen(videoSt) ==> (active <==> HeaderWritten(env))
      ensures active ==> videoSt.nextPts == 0 && stamped == []
      ensures env.format.videoCodec && StreamCreated(env.init) ==> videoSt.nextPts == 0
      ensures env.format.videoCodec && Configured(env.init) ==>
                videoSt.enc.Some? && videoSt.enc.value.config == Some(VideoConfig(width, height, env.format.globalHeader))
      ensures env.format.videoCodec && InitSucceeds(env.init) && env.init.registerRes == CudaSuccess ==>
                hwFrames == Some(FrameSize(width, height))
    {
      calls := PrepareVideo(env);
      ghost var outputCalls;
      ok, outputCalls := OpenOutput(env);
      calls := calls + outputCalls;
    }

    /**
     * The end of startRecordingSession: leave through a cleanup that does
     * nothing when the codec is not open, otherwise open the file and write
     * the header.
     */
    method OpenOutput(env: StartEnv) returns (ok: bool, ghost calls: seq<Event>)
      requires Valid() && !active && output == Some(env.format)
      modifies this`active, this`output, this`videoSt, this`hwDevice, this`hwFrames, this`textureRegistered, this`trace
      ensures Valid()
      ensures ok == active == (CodecOpen(videoSt) && HeaderWritten(env))
      ensures calls == if CodecOpen(videoSt) then HeaderCalls(env) else []
      ensures unchanged(this`output, this`videoSt, this`hwDevice, this`hwFrames, this`textureRegistered, this`trace)
    {
      if !CodecOpen(videoSt) {
        Cleanup(FlushEnv(0, []));
        return false, [];
      }
      ok, calls := OpenFileAndWriteHeader(env);
    }

    /**
     * The middle of startRecordingSession: initialise the video stream when the
     * format has a video codec, ignoring the result, then open the codec when
     * have_video is set, which it stays from any earlier session.
     */
    method PrepareVideo(env: StartEnv) returns (ghost calls: seq<Event>)
      requires Valid() && !active && output == Some(env.format)
      modifies this`haveVideo, this`encodeVideo, this`videoSt, this`stamped
      modifies this`hwDevice, this`hwFrames, this`textureRegistered
      ensures Valid() && NoTeardown(calls)
      ensures haveVideo == (old(haveVideo) || env.format.videoCodec)
      ensures CodecOpen(videoSt) ==>
                calls == (if env.format.videoCodec then InitCalls(env.init, width, height) else []) + OpenCalls(env.open, true)
      ensures env.format.videoCodec && ContextCreated(env.init) && env.open.openRet >= 0 ==>
                CodecOpen(videoSt) && videoSt.frame == (env.open.frameAllocated && env.open.bufferRet >= 0)
      ensures env.format.videoCodec && StreamCreated(env.init) ==> videoSt.nextPts == 0
      ensures env.format.videoCodec && Configured(env.init) ==>
                videoSt.enc.Some? && videoSt.enc.value.config == Some(VideoConfig(width, height, env.format.globalHeader))
      ensures env.format.videoCodec && InitSucceeds(env.init) && env.init.registerRes == CudaSuccess ==>
                hwFrames == Some(FrameSize(width, height))
    {
      calls := InitialiseForFormat(env);
      if haveVideo {
        ghost var openCalls := OpenVideo(env.open);
        calls := calls + openCalls;
      }
    }

    /**
     * The first half of PrepareVideo: when the format has a video codec, run
     * initialiseVideo, whose result is ignored, and set have_video and
     * encode_video.
     */
    method InitialiseForFormat(env: StartEnv) returns (ghost calls: seq<Event>)
      requires Valid() && !active && output == Some(env.format)
      modifies this`haveVideo, this`encodeVideo, this`videoSt, this`stamped
      modifies this`hwDevice, this`hwFrames, this`textureRegistered
      ensures Valid() && NoTeardown(calls)
      ensures haveVideo == (old(haveVideo) || env.format.videoCodec)
      ensures calls == if env.format.videoCodec then InitCalls(env.init, width, height) else []
      ensures env.format.videoCodec && ContextCreated(env.init) ==> videoSt.enc.Some?
      ensures env.format.videoCodec && StreamCreated(env.init) ==> videoSt.nextPts == 0
      ensures env.format.videoCodec && Configured(env.init) ==>
                videoSt.enc.Some? && videoSt.enc.value.config == Some(VideoConfig(width, height, env.format.globalHeader))
      ensures env.format.videoCodec && InitSucceeds(env.init) && env.init.registerRes == CudaSuccess ==>
                hwFrames == Some(FrameSize(width, height))
    {
      calls := [];
      if env.format.videoCodec {
        var initialised;
        initialised, calls := InitialiseVideo(env.init);
        haveVideo, encodeVideo := true, true;
      }
    }

    /**
     * The start of startRecordingSession: allocate the output context for the
     * file name, falling back to the "mpeg" format when the extension says
     * nothing. `env.format` is the format of whichever context was allocated.
     */
    method AllocOutputContext(env: StartEnv) returns (ghost calls: seq<Event>)
      modifies this`output
      ensures output == if ContextAllocated(env) then Some(env.format) else None
      ensures calls == OutputCalls(env)
    {
      calls := [AllocOutput(false)];
      output := if env.byExtension then Some(env.format) else None;
      if output.None? {
        calls := calls + [AllocOutput(true)];
        output := if env.byName then Some(env.format) else None;
      }
    }

    /**
     * The end of startRecordingSession: open the file unless the format needs
     * none, write the header, and only then mark the session active. Neither
     * failure frees anything.
     */
    method OpenFileAndWriteHeader(env: StartEnv) returns (ok: bool, ghost calls: seq<Event>)
      requires !active
      modifies this`active
      ensures ok == active == HeaderWritten(env)
      ensures calls == HeaderCalls(env)
    {
      calls := [];
      if !env.format.noFile {
        calls := [OpenFile];
        if env.fileRet < 0 { return false, calls; }
      }
      calls := calls + [WriteHeader];
      if env.headerRet < 0 { return false, calls; }
      active := true;
      return true, calls;
    }

    /**
     * addVideoFrame: nothing when inactive; nothing more when the frame cannot
     * be made writable; otherwise the texture is copied (CUDA results are
     * ignored), the frame is stamped with next_pts, the counter grows by one
     * and the frame is encoded.
     */
    method AddVideoFrame(env: FrameEnv)
      requires Valid() && Drains(env.receives)
      modifies this`videoSt, this`stamped, this`trace
      ensures Valid()
      ensures !old(active) ==> unchanged(this)
      ensures old(active) && env.writableRet < 0 ==> trace == old(trace) + [MakeWritable] && unchanged(this`videoSt, this`stamped)
      ensures old(active) && env.writableRet >= 0 ==>
                videoSt == old(videoSt).(nextPts := old(videoSt.nextPts) + 1) && stamped == old(stamped) + [old(videoSt.nextPts)]
      ensures old(active) && env.writableRet >= 0 ==>
                trace == old(trace) + [MakeWritable, CopyTexture]
                         + EncodeCalls(Frame(old(videoSt.nextPts)), env.sendRet, env.receives, videoSt.streamIndex)
    {
      if !active { return; }
      if env.writableRet < 0 {
        trace := trace + [MakeWritable];
        return;
      }
      var pts := videoSt.nextPts;
      videoSt := videoSt.(nextPts := pts + 1);
      stamped := stamped + [pts];
      var r;
      ghost var encodeCalls;
      r, encodeCalls := Encode(Frame(pts), env.sendRet, env.receives);
      trace := trace + [MakeWritable, CopyTexture] + encodeCalls;
    }

    /**
     * encode: send one frame (or the flush), then receive and write packets,
     * each tagged with the stream index, until EAGAIN (0), EOF (1) or an
     * error (1). Nothing is called on an inactive session.
     */
    method Encode(frame: FrameArg, sendRet: int, rs: seq<Receive>) returns (r: int, ghost calls: seq<Event>)
      requires Drains(rs)
      ensures !active ==> r == 1 && calls == []
      ensures active ==> calls == EncodeCalls(frame, sendRet, rs, videoSt.streamIndex)
      ensures active && sendRet < 0 ==> r == 1
      ensures active && sendRet >= 0 ==> (r == 0 <==> rs[StopIndex(rs)].ret == ErrAgain)
      ensures r == 0 || r == 1
    {
      if !active { return 1, []; }
      var index := videoSt.streamIndex;
      calls := [SendCall(frame)];
      var ret := sendRet;
      if ret < 0 { return 1, calls; }
      ghost var k := StopIndex(rs);
      var i := 0;
      while ret >= 0
        invariant 0 <= i <= k && ret >= 0
        invariant calls == [SendCall(frame)] + seq(i, _ => WritePacket(index))
        decreases k - i
      {
        ret := rs[i].ret;
        if ret == ErrAgain || ret == ErrEof {
          break;
        } else if ret < 0 {
          assert i == k;
          return 1, calls;
        }
        calls := calls + [WritePacket(index)];
        ret := rs[i].writeRet;
        if ret < 0 {
          assert i == k;
          return 1, calls;
        }
        i := i + 1;
      }
      assert i == k;
      r := if ret == ErrEof then 1 else 0;
    }

    /**
     * finishRecordingSession: false and no call at all when inactive;
     * otherwise cleanup, inactive, and true whatever the flush returned.
     */
    method FinishRecordingSession(env: FlushEnv) returns (ok: bool)
      requires Valid() && Drains(env.receives)
      modifies this`active, this`output, this`videoSt, this`hwDevice, this`hwFrames, this`textureRegistered, this`trace
      ensures Valid()
      ensures ok == old(active) && !active
      ensures !old(active) ==> unchanged(this)
      ensures old(active) ==>
                trace == old(trace) + EncodeCalls(Flush, env.sendRet, env.receives, old(videoSt.streamIndex))
                         + TeardownCalls(true, old(output).value.noFile)
      ensures old(active) ==> output == None && videoSt == old(videoSt).(enc := None, frame := false, packet := false)
      ensures old(active) ==> !hwDevice && hwFrames == None && !textureRegistered
    {
      if !active { return false; }
      Cleanup(env);
      active := false;
      return true;
    }

    /**
     * cleanup: a no-op when inactive. Otherwise flush the encoder, write the
     * trailer, free the codec state and hardware buffers and unregister the
     * texture (when there is video), close the file and free the context.
     */
    method Cleanup(env: FlushEnv)
      requires active ==> output.Some? && Drains(env.receives)
      modifies this`output, this`videoSt, this`hwDevice, this`hwFrames, this`textureRegistered, this`trace
      ensures !old(active) ==> unchanged(this)
      ensures active ==>
                trace == old(trace) + EncodeCalls(Flush, env.sendRet, env.receives, old(videoSt.streamIndex))
                         + TeardownCalls(haveVideo, old(output).value.noFile)
      ensures active ==> output == None
      ensures active && haveVideo ==> videoSt == old(videoSt).(enc := None, frame := false, packet := false)
      ensures active && haveVideo ==> !hwDevice && hwFrames == None && !textureRegistered
      ensures active && !haveVideo ==> unchanged(this`videoSt, this`hwDevice, this`hwFrames, this`textureRegistered)
    {
      if !active { return; }
      var flushed;
      ghost var flushCalls;
      flushed, flushCalls := Encode(Flush, env.sendRet, env.receives);
      ghost var freeCalls := FreeSessionState();
      trace := trace + flushCalls + freeCalls;
    }

    /** The part of cleanup after the flush: trailer, frees, close, free. */
    method FreeSessionState() returns (ghost calls: seq<Event>)
      requires output.Some?
      modifies this`output, this`videoSt, this`hwDevice, this`hwFrames, this`textureRegistered
      ensures calls == TeardownCalls(haveVideo, old(output).value.noFile)
      ensures output == None
      ensures haveVideo ==> videoSt == old(videoSt).(enc := None, frame := false, packet := false)
      ensures haveVideo ==> !hwDevice && hwFrames == None && !textureRegistered
      ensures !haveVideo ==> unchanged(this`videoSt, this`hwDevice, this`hwFrames, this`textureRegistered)
    {
      calls := [WriteTrailer];
      if haveVideo {
        videoSt := videoSt.(enc := None, frame := false, packet := false);
        hwDevice, hwFrames, textureRegistered := false, None, false;
        calls := calls + [FreeCodecState, ReleaseHwBuffers, UnregisterTexture];
      }
      if !output.value.noFile {
        calls := calls + [CloseFile];
      }
      output := None;
      calls := calls + [FreeOutput];
    }
  }
}
