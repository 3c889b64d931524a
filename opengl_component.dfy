/**
 * The render loop of Source/OpenGLComponent.cpp as far as it drives the
 * recording session: the `time` tick counter, the guards that skip a tick,
 * the add-frame / finish schedule, the session started when the GL context
 * is created, and the destructor. Drawing, uniforms and audio are not
 * modelled; each render state contributes only its id, its preset name and
 * whether its shader is usable.
 */
module OpenGL {
  import opened Encoder

  /** `unsigned int` is 32 bits wide. */
  const TimeModulus := 0x1_0000_0000
  /** The tick on which the session is finished. */
  const FinishTick := 1000
  /** `GLuint progID == -1`: -1 converted to an unsigned 32-bit value. */
  const InvalidProgram := 0xFFFF_FFFF
  /** The output file of the session started with every new GL context. */
  const DefaultOutputPath := "C:/Users/lucas/OneDrive/Desktop/test/test.mp4"

  /** What the render state reports about its shader program. */
  datatype Shader = Shader(initialised: bool, programId: nat)

  /** A render state: its id, the name of its preset, and its shader. */
  datatype RenderStateInfo = RenderStateInfo(id: int, presetName: string, shader: Shader)

  /** What one tick asks of the encoder. */
  datatype Request = Idle | AddFrame | Finish

  /** `time++` on an `unsigned int`. */
  function NextTime(time: nat): (t: nat)
    requires time < TimeModulus
    ensures t < TimeModulus
    ensures t == 0 <==> time == TimeModulus - 1
    ensures time < TimeModulus - 1 ==> t == time + 1
  {
    (time + 1) % TimeModulus
  }

  /**
   * The early-return guards of renderOpenGL: the selected state exists, its
   * shader is initialised and its program id is valid.
   */
  predicate GuardsPass(selectedState: nat, states: seq<RenderStateInfo>) {
    && 1 <= selectedState <= |states|
    && states[selectedState - 1].shader.initialised
    && states[selectedState - 1].shader.programId != InvalidProgram
  }

  /** What a tick at (incremented) `time` asks of the encoder, given whether the guards passed. */
  function TickRequest(time: nat, pass: bool): (r: Request)
    ensures r == Finish <==> pass && time == FinishTick
    ensures r == AddFrame <==> pass && time < FinishTick
  {
    if !pass then Idle
    else if time == FinishTick then Finish
    else if time < FinishTick then AddFrame
    else Idle
  }

  /** The value of `time` after tick number `i` (counting from 0) of a fresh component. */
  function TickTime(i: nat): (t: nat)
    ensures i + 1 < TimeModulus ==> t == i + 1
  {
    (i + 1) % TimeModulus
  }

  /** The requests of a fresh component's ticks, given whether each tick passed the guards. */
  function Requests(passes: seq<bool>): (r: seq<Request>)
    ensures |r| == |passes|
  {
    if |passes| == 0 then []
    else Requests(passes[..|passes| - 1]) + [TickRequest(TickTime(|passes| - 1), passes[|passes| - 1])]
  }

  /** Tick `i` asks for exactly what its own time and guards call for. */
  lemma {:induction false} RequestAt(passes: seq<bool>, i: nat)
    requires i < |passes|
    ensures Requests(passes)[i] == TickRequest(TickTime(i), passes[i])
  {
    var n := |passes| - 1;
    if i < n {
      RequestAt(passes[..n], i);
    }
  }

  /**
   * Before `time` wraps around, the session is finished only on tick 1000,
   * and only if that tick passes the guards.
   */
  lemma FinishRequestedIff(passes: seq<bool>)
    requires |passes| < TimeModulus
    ensures Finish in Requests(passes) <==> |passes| >= FinishTick && passes[FinishTick - 1]
  {
    var r := Requests(passes);
    if Finish in r {
      var i :| 0 <= i < |r| && r[i] == Finish;
      RequestAt(passes, i);
    }
    if |passes| >= FinishTick && passes[FinishTick - 1] {
      RequestAt(passes, FinishTick - 1);
    }
  }

  /** Before `time` wraps around, no two ticks ask for the finish. */
  lemma FinishAtMostOnce(passes: seq<bool>, i: nat, j: nat)
    requires |passes| < TimeModulus
    requires i < |passes| && j < |passes|
    requires Requests(passes)[i] == Finish && Requests(passes)[j] == Finish
    ensures i == j == FinishTick - 1
  {
    RequestAt(passes, i);
    RequestAt(passes, j);
  }

  /** Frames are requested on the ticks before 1000 that pass the guards, and on no other. */
  lemma FramesRequested(passes: seq<bool>, i: nat)
    requires |passes| < TimeModulus && i < |passes|
    ensures Requests(passes)[i] == AddFrame <==> i < FinishTick - 1 && passes[i]
  {
    RequestAt(passes, i);
  }

  /**
   * Once `time` wraps around, tick 1000 comes back: a component that keeps
   * rendering asks for the finish a second time.
   */
  lemma FinishAgainAfterWrap(passes: seq<bool>)
    requires |passes| == TimeModulus + FinishTick
    requires passes[FinishTick - 1] && passes[|passes| - 1]
    ensures Requests(passes)[FinishTick - 1] == Finish && Requests(passes)[|passes| - 1] == Finish
  {
    RequestAt(passes, FinishTick - 1);
    RequestAt(passes, |passes| - 1);
  }

  class OpenGLComponent {
    var time: nat
    var selectedState: nat
    var renderStates: seq<RenderStateInfo>
    /** getWidth() and getHeight() of the component. */
    var width: int
    var height: int
    var encoder: VideoEncoder?

    /** Whether each tick so far passed the guards. */
    ghost var passes: seq<bool>
    /** What each tick so far asked of the encoder. */
    ghost var requests: seq<Request>

    /**
     * `time` counts the ticks modulo 2^32, the requests follow the schedule,
     * and an encoder, once created, keeps its own invariant.
     */
    ghost predicate Valid()
      reads this, encoder
    {
      && time == |passes| % TimeModulus
      && requests == Requests(passes)
      && selectedState < TimeModulus
      && (encoder != null ==> encoder.Valid())
    }

    /** The render states are added in the constructor; GL context attachment is not modelled. */
    constructor (states: seq<RenderStateInfo>, w: int, h: int)
      ensures Valid() && encoder == null
      ensures time == 0 && selectedState == 1 && requests == []
      ensures renderStates == states && width == w && height == h
    {
      time, selectedState := 0, 1;
      renderStates := states;
      width, height := w, h;
      encoder := null;
      passes, requests := [], [];
    }

    /**
     * The destructor: `videoEncoder.release()` gives up ownership without
     * finishing the session, which is left exactly as it was.
     */
    method Destroy()
      modifies this`encoder
      ensures encoder == null
      ensures old(encoder) != null ==> unchanged(old(encoder))
    {
      encoder := null;
    }

    method SetSelectedState(state: nat)
      requires Valid() && state < TimeModulus
      modifies this`selectedState
      ensures Valid() && selectedState == state
    {
      selectedState := state;
    }

    /**
     * newOpenGLContextCreated: compile every shader that is not initialised
     * yet (`programIds[i]` is the program id compiling state i yields; a
     * failed compile or link only asserts in debug builds, so the state is
     * initialised whatever it yields), then replace the
     * encoder by a fresh one for the fixed output path at the component's
     * current size and start its session. The previous encoder is dropped
     * without being finished. The start result is only logged.
     */
    method NewOpenGLContextCreated(programIds: seq<nat>, env: StartEnv)
      requires Valid() && |programIds| == |renderStates|
      modifies this`renderStates, this`encoder
      ensures Valid()
      ensures |renderStates| == |old(renderStates)|
      ensures forall i :: 0 <= i < |renderStates| ==>
                renderStates[i] == if old(renderStates)[i].shader.initialised then old(renderStates)[i]
                                   else old(renderStates)[i].(shader := Shader(true, programIds[i]))
      ensures forall i :: 0 <= i < |renderStates| ==> renderStates[i].shader.initialised
      ensures encoder != null && fresh(encoder)
      ensures encoder.fileName == DefaultOutputPath && encoder.width == width && encoder.height == height
      ensures |encoder.trace| > 0 && encoder.trace[0] == AllocOutput(false) && NoTeardown(encoder.trace)
      ensures !ContextAllocated(env) ==> !encoder.active && encoder.trace == [AllocOutput(false), AllocOutput(true)]
      ensures encoder.active ==> encoder.trace == SessionOpenCalls(env, width, height) && encoder.videoSt.nextPts == 0
      ensures SetsUpVideo(env) && ContextCreated(env.init) && env.open.openRet >= 0 ==> (encoder.active <==> HeaderWritten(env))
      ensures encoder.output == (if ContextAllocated(env) then Some(env.format) else None)
      ensures encoder.haveVideo == SetsUpVideo(env)
      ensures old(encoder) != null ==> unchanged(old(encoder))
    {
      var i := 0;
      while i < |renderStates|
        invariant 0 <= i <= |renderStates| == |old(renderStates)|
        invariant forall j :: 0 <= j < i ==>
                    renderStates[j] == if old(renderStates)[j].shader.initialised then old(renderStates)[j]
                                       else old(renderStates)[j].(shader := Shader(true, programIds[j]))
        invariant forall j :: i <= j < |renderStates| ==> renderStates[j] == old(renderStates)[j]
      {
        if !renderStates[i].shader.initialised {
          renderStates := renderStates[i := renderStates[i].(shader := Shader(true, programIds[i]))];
        }
        i := i + 1;
      }
      encoder := StartNewEncoder(width, height, env);
    }

    /** The end of newOpenGLContextCreated: a fresh encoder for the fixed path, with its session started. */
    static method StartNewEncoder(w: int, h: int, env: StartEnv) returns (e: VideoEncoder)
      ensures fresh(e) && e.Valid()
      ensures e.fileName == DefaultOutputPath && e.width == w && e.height == h
      ensures |e.trace| > 0 && e.trace[0] == AllocOutput(false) && NoTeardown(e.trace)
      ensures !ContextAllocated(env) ==> !e.active && e.trace == [AllocOutput(false), AllocOutput(true)]
      ensures e.active ==> e.trace == SessionOpenCalls(env, w, h) && e.videoSt.nextPts == 0
      ensures SetsUpVideo(env) && ContextCreated(env.init) && env.open.openRet >= 0 ==> (e.active <==> HeaderWritten(env))
      ensures e.output == (if ContextAllocated(env) then Some(env.format) else None) && e.haveVideo == SetsUpVideo(env)
    {
      e := new VideoEncoder(DefaultOutputPath, w, h);
      var started;
      ghost var calls;
      started, calls := e.StartRecordingSession(env);
    }

    /**
     * renderOpenGL: advance `time`, then leave at the first failing guard;
     * otherwise finish the session on tick 1000 and add a frame before it.
     * The source dereferences the encoder unconditionally on those ticks.
     */
    method RenderOpenGL(frame: FrameEnv, flush: FlushEnv)
      requires Valid() && Drains(frame.receives) && Drains(flush.receives)
      requires encoder == null ==> TickRequest(NextTime(time), GuardsPass(selectedState, renderStates)) == Idle
      modifies this`time, this`passes, this`requests, encoder
      ensures Valid()
      ensures time == NextTime(old(time))
      ensures requests == old(requests) + [TickRequest(time, GuardsPass(selectedState, renderStates))]
      ensures requests[|requests| - 1] == Idle ==> encoder == null || unchanged(encoder)
      ensures requests[|requests| - 1] != Idle && !old(encoder.active) ==> unchanged(encoder)
      ensures requests[|requests| - 1] == Finish ==>
                !encoder.active && (old(encoder.active) ==> encoder.output == None && encoder.videoSt.enc == None)
      ensures requests[|requests| - 1] == Finish && old(encoder.active) ==>
                encoder.trace == old(encoder.trace)
                                 + EncodeCalls(Flush, flush.sendRet, flush.receives, old(encoder.videoSt.streamIndex))
                                 + TeardownCalls(true, old(encoder.output).value.noFile)
      ensures requests[|requests| - 1] == AddFrame ==>
                encoder.active == old(encoder.active)
                && encoder.videoSt.nextPts
                   == old(encoder.videoSt.nextPts) + if old(encoder.active) && frame.writableRet >= 0 then 1 else 0
      ensures requests[|requests| - 1] == AddFrame && old(encoder.active) ==>
                encoder.trace == old(encoder.trace) + [MakeWritable]
                                 + if frame.writableRet < 0 then []
                                   else [CopyTexture] + EncodeCalls(Frame(old(encoder.videoSt.nextPts)), frame.sendRet,
                                                                    frame.receives, old(encoder.videoSt.streamIndex))
    {
      AdvanceTime();
      if selectedState < 1 || selectedState > |renderStates| {
        return;
      }
      var state := renderStates[selectedState - 1];
      if !state.shader.initialised {
        return;
      }
      if state.shader.programId == InvalidProgram {
        return;
      }
      DriveEncoder(frame, flush);
    }

    /** The start of renderOpenGL: `time++`, with the tick and what it asks for recorded. */
    method AdvanceTime()
      requires Valid()
      modifies this`time, this`passes, this`requests
      ensures Valid()
      ensures time == NextTime(old(time))
      ensures requests == old(requests) + [TickRequest(time, GuardsPass(selectedState, renderStates))]
    {
      time := NextTime(time);
      ghost var pass := GuardsPass(selectedState, renderStates);
      passes := passes + [pass];
      requests := requests + [TickRequest(time, pass)];
      assert passes[..|passes| - 1] == old(passes);
    }

    /**
     * The end of renderOpenGL once the guards pass: finish the session on
     * tick 1000, add a frame on the ticks before it, and do nothing after it.
     */
    method DriveEncoder(frame: FrameEnv, flush: FlushEnv)
      requires encoder != null ==> encoder.Valid()
      requires time <= FinishTick ==> encoder != null
      requires Drains(frame.receives) && Drains(flush.receives)
      modifies encoder
      ensures encoder != null ==> encoder.Valid()
      ensures time > FinishTick || !old(encoder.active) ==> encoder == null || unchanged(encoder)
      ensures time == FinishTick ==>
                !encoder.active && (old(encoder.active) ==> encoder.output == None && encoder.videoSt.enc == None)
      ensures time == FinishTick && old(encoder.active) ==>
                encoder.trace == old(encoder.trace)
                                 + EncodeCalls(Flush, flush.sendRet, flush.receives, old(encoder.videoSt.streamIndex))
                                 + TeardownCalls(true, old(encoder.output).value.noFile)
      ensures time < FinishTick ==>
                encoder.active == old(encoder.active)
                && encoder.videoSt.nextPts
                   == old(encoder.videoSt.nextPts) + if old(encoder.active) && frame.writableRet >= 0 then 1 else 0
      ensures time < FinishTick && old(encoder.active) ==>
                encoder.trace == old(encoder.trace) + [MakeWritable]
                                 + if frame.writableRet < 0 then []
                                   else [CopyTexture] + EncodeCalls(Frame(old(encoder.videoSt.nextPts)), frame.sendRet,
                                                                    frame.receives, old(encoder.videoSt.streamIndex))
    {
      if time == FinishTick {
        var finished := encoder.FinishRecordingSession(flush);
      } else if time < FinishTick {
        encoder.AddVideoFrame(frame);
      }
    }
  }
}
