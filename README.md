# AudioVisualiser recording core, modelled in Dafny

AudioVisualiser is a JUCE audio plug-in. It draws shader-based visualisations
of the audio with OpenGL and can record them to an H.264 file. Each rendered
frame is copied from the GL texture into a CUDA frame and handed to FFmpeg's
`h264_nvenc` encoder and muxer. This project models the core of that
recording path, component by component:

- `str_helper.dfy` (module `StrHelper`, pure) models the file-name validation
  of the recorder window: `isValidFilename`, `isMP4` and `isValidVidFileStr`.
  The regular expression becomes a recursive predicate. `substr` throwing on a
  wrapped-around `size_t` becomes a `Checked` result.
- `video_encoder.dfy` (module `Encoder`, class `VideoEncoder`) models the
  encoder session:
  - initialiseVideo, allocFrame and openVideo;
  - start, addVideoFrame and the encode/drain loop;
  - finish and cleanup.

  Every FFmpeg or CUDA call is a step whose result is a parameter: the
  `InitEnv`, `OpenEnv`, `StartEnv`, `FrameEnv` and `FlushEnv` values. The call
  itself is recorded in a ghost `trace` of `Event`s. Objects the encoder owns
  become `Option` values or presence flags.
- `opengl_component.dfy` (module `OpenGL`, class `OpenGLComponent`) models the
  parts of the render component that drive the session:
  - the unsigned `time` counter and the guards that skip a tick;
  - the add-frame / finish schedule on tick 1000;
  - the session started for every new GL context, and the destructor.

  Each tick's outcome is recorded in ghost `passes` and `requests`, and the
  schedule is proved about the `Requests` function.
- `create_video_component.dfy` (module `Recorder`, class `ContentComponent`)
  models the recorder window's start, finish, path and file-name handlers,
  and the three flags that gate them.
- `selector_tab_panel.dfy` (module `Selector`, class `SelectorTabPanel`) models
  the preset panel:
  - the profiles, with their visibility;
  - the preset selector's change handler, with the `int` / `unsigned int`
    conversions it makes;
  - the width and height editors' validation.

The quirks of the code are kept as written (the exceptions are under "Left out"), for example:
- `return 1` from a `bool` function when no output context can be allocated,
  which reports success with nothing active;
- the ignored result of initialiseVideo;
- `have_video`, which is never reset;
- a cleanup that does nothing when called before the session is active;
- the wrap-around of `time`, which makes tick 1000 recur after 2^32 ticks;
- visibility that is not swapped when the previous selection names no profile.

## Model

| member | source | states |
|---|---|---|
| StrHelper.MatchesNamePatternIff | Source/StrHelper.h:20-21 | The anchored pattern matches exactly the non-empty strings made only of ASCII letters, digits, `_`, `-` and `.`; proved by induction. |
| StrHelper.IsValidFilename | Source/StrHelper.h:16-22 | True iff the length is between 5 and 255 and every character belongs to the name class. |
| StrHelper.IsMP4 | Source/StrHelper.h:24-27 | `substr` throws exactly when the string is shorter than 4, because `length() - 4` wraps. Otherwise the result is true iff the last four characters are ".mp4", case-sensitive. |
| StrHelper.IsValidVidFileStr | Source/StrHelper.h:29-31 | isMP4 is reached only when it cannot throw. True iff the length is in range, every character is a name character and the name ends in ".mp4". |
| StrHelper.NameExamples | Source/StrHelper.h:16-31 | "a.mp4" is accepted. ".mp4" (too short), "a.MP4" (case), "" and "my video.mp4" (a space) are rejected. |
| Encoder.StopIndex | Source/VideoEncoder.cpp:348-371 | The drain loop stops at the first receive that fails (EAGAIN and EOF included) or whose write fails; every receive before it continues the loop. |
| Encoder.EvenFloor | Source/VideoEncoder.cpp:70-71 | The codec dimension is even, not above the requested one, and less than 2 below it. |
| Encoder.VideoConfig | Source/VideoEncoder.cpp:66-86 | The video codec gets even width and height within one of the component's size, 400000 bit/s, 30 frames per second, a GOP of 12, and the format's global-header flag. |
| Encoder.HwCalls | Source/VideoEncoder.cpp:92-144 | The CUDA setup begins with device creation and frees only the hardware buffers it created itself. The frames context is initialised exactly when device creation succeeded. |
| Encoder.StreamCalls | Source/VideoEncoder.cpp:32-63 | Stream setup begins by looking up the encoder and frees nothing. |
| Encoder.InitCalls | Source/VideoEncoder.cpp:28-156 | initialiseVideo begins with the encoder lookup and frees nothing. The CUDA frames context is initialised iff the codec was configured for video and the device was created. |
| Encoder.OpenCalls | Source/VideoEncoder.cpp:184-226 | openVideo begins with avcodec_open2 and frees nothing. |
| Encoder.HeaderCalls | Source/VideoEncoder.cpp:271-286 | The file is opened unless the format needs none; the header write comes after it. |
| Encoder.TeardownCalls | Source/VideoEncoder.cpp:395-415 | The teardown after the flush begins with the trailer and ends with freeing the output context. It closes the file iff the format needs one and makes only teardown calls. |
| Encoder.Upto | Source/VideoEncoder.cpp:331 | The timestamps that next_pts++ hands out after a reset, one per frame: its contract gives their number n, and UptoValues shows they are 0, 1, …, n−1. |
| Encoder.UptoValues | Source/VideoEncoder.cpp:331 | The timestamps stamped since the last reset are 0, 1, …, n−1: position i holds i, so there is no gap and no repeat. |
| Encoder.SessionOpenOrder | Source/VideoEncoder.cpp:240-288 | A session that becomes active first allocated the output context, opened the codec, and wrote the header last, with no teardown call on the way. |
| Encoder.VideoEncoder.constructor | Source/VideoEncoder.cpp:23-26 | A new encoder is inactive, has no output context or codec, has made no call, starts timestamps at 0, and stores the file name and size. |
| Encoder.VideoEncoder.InitialiseVideo | Source/VideoEncoder.cpp:28-156 | Returns true exactly when every step up to the CUDA frames context succeeded, and makes exactly the InitCalls. A created stream resets next_pts to 0; otherwise next_pts is left as it was. A configured codec carries VideoConfig. After a failed texture registration the model attaches nothing and reports success (see "Left out"). |
| Encoder.VideoEncoder.CreateStream | Source/VideoEncoder.cpp:32-65 | Reports whether a fresh, unopened codec context was allocated; makes exactly the StreamCalls; a created stream restarts the timestamps; otherwise they are left as they were. |
| Encoder.VideoEncoder.AttachHardware | Source/VideoEncoder.cpp:92-144 | Succeeds iff the device and frames contexts were created. The codec gets hardware contexts iff registration succeeded. Every failure after device creation leaves no hardware buffer behind. |
| Encoder.VideoEncoder.OpenVideo | Source/VideoEncoder.cpp:158-226 | Without a codec context, or when avcodec_open2 fails, nothing changes. Otherwise the codec is open, and the reusable frame exists iff allocation and the hardware buffer succeeded. |
| Encoder.VideoEncoder.StartRecordingSession | Source/VideoEncoder.cpp:228-289 | Starting while active fails with no call and no change. Otherwise it succeeds iff the session became active, or no output context could be allocated. Its first call is always the allocation by file extension. It becomes active only after the header is written, with exactly SessionOpenCalls and no teardown, and then at next_pts 0 with no frame stamped. It keeps the object invariant, which includes that a codec context outliving an inactive session has stamped nothing. The new session state is stated too: the output context is the allocated format (none when neither allocation succeeded), have_video is set iff it was already set or the format has a video codec, and when a fresh codec context opens, the reusable frame exists iff its allocation and hardware buffer succeeded. |
| Encoder.VideoEncoder.OpenSession | Source/VideoEncoder.cpp:240-289 | The start after its active check: the same outcomes, including the first call, the fresh timestamps, the stored output format, have_video and the reusable frame, with the trace left to the caller. |
| Encoder.VideoEncoder.SetUpAndOpen | Source/VideoEncoder.cpp:251-289 | With an output context: active iff the codec opened and the file and header succeeded. Nothing is freed when the codec did not open. An active session starts at next_pts 0 with no frame stamped. The output context is kept, have_video is set iff it was already set or the format has a video codec, and a freshly created codec context that opens has the reusable frame iff allocation and the hardware buffer succeeded. |
| Encoder.VideoEncoder.OpenOutput | Source/VideoEncoder.cpp:262-288 | Active iff the codec is open and the file and header succeeded. The file and header calls are made only when the codec is open. The output context, codec, hardware state and trace are left as they were, so the cleanup on an unopened codec frees nothing. |
| Encoder.VideoEncoder.PrepareVideo | Source/VideoEncoder.cpp:251-260 | have_video becomes set once the format has a video codec and then stays set. When the codec ends up open, the calls were initialiseVideo's (if any) and then openVideo's. A freshly created codec context opens when avcodec_open2 succeeds, and then the reusable frame exists iff allocation and the hardware buffer succeeded. |
| Encoder.VideoEncoder.InitialiseForFormat | Source/VideoEncoder.cpp:252-257 | initialiseVideo runs iff the format has a video codec, and its result is ignored. A created codec context is present afterwards. |
| Encoder.VideoEncoder.AllocOutputContext | Source/VideoEncoder.cpp:240-249 | It tries the file extension first and then "mpeg". An output context exists iff one of the two allocations succeeded. |
| Encoder.VideoEncoder.OpenFileAndWriteHeader | Source/VideoEncoder.cpp:271-288 | The session becomes active iff the file opened (or is not needed) and the header was written. |
| Encoder.VideoEncoder.AddVideoFrame | Source/VideoEncoder.cpp:291-334 | Does nothing when inactive, and only the writability check when the frame cannot be made writable. Otherwise it stamps the frame with next_pts, increments the counter by exactly one, and encodes. The stamps stay 0..n−1. |
| Encoder.VideoEncoder.Encode | Source/VideoEncoder.cpp:336-375 | Returns 1 with no call when inactive, and 1 when the send fails. Otherwise it writes every packet received before the stop, each tagged with the stream index, and returns 0 iff the stop was EAGAIN. |
| Encoder.VideoEncoder.FinishRecordingSession | Source/VideoEncoder.cpp:377-385 | Returns true iff the session was active, and leaves it inactive. It flushes, then tears down: the output context, codec state and hardware buffers are all gone afterwards. |
| Encoder.VideoEncoder.Cleanup | Source/VideoEncoder.cpp:387-416 | A no-op when inactive. Otherwise it flushes, then makes the teardown calls; the codec state is freed only when there is video. |
| Encoder.VideoEncoder.FreeSessionState | Source/VideoEncoder.cpp:395-415 | Writes the trailer, frees the codec state and hardware (when there is video), closes the file when needed, and frees the output context. |
| OpenGL.NextTime | Source/OpenGLComponent.cpp:58 | `time++` on an unsigned int: it wraps to 0 exactly from 2^32−1, and otherwise adds one. |
| OpenGL.TickRequest | Source/OpenGLComponent.cpp:95-99 | A tick that passed the guards finishes the session iff time is 1000, and adds a frame iff time is below 1000. |
| OpenGL.TickTime | Source/OpenGLComponent.h:83 | Before the wrap, tick i of a fresh component sees time i+1. |
| OpenGL.Requests | Source/OpenGLComponent.cpp:57-102 | One request per tick. |
| OpenGL.RequestAt | Source/OpenGLComponent.cpp:95-99 | Tick i asks for exactly what its own time and guards call for; proved by induction. |
| OpenGL.FinishRequestedIff | Source/OpenGLComponent.cpp:95-96 | Before the wrap, the session is finished iff tick 1000 happened and passed the guards. |
| OpenGL.FinishAtMostOnce | Source/OpenGLComponent.cpp:95-96 | Before the wrap, two finishing ticks are both tick 1000. |
| OpenGL.FramesRequested | Source/OpenGLComponent.cpp:97-98 | Frames are requested exactly on the guarded ticks before tick 1000. |
| OpenGL.FinishAgainAfterWrap | Source/OpenGLComponent.cpp:58-96 | After 2^32 more ticks, time is 1000 again and a second finish is requested. |
| OpenGL.OpenGLComponent.constructor | Source/OpenGLComponent.h:82-84 | time starts at 0, the selected state at 1, with no encoder and no tick yet. |
| OpenGL.OpenGLComponent.Destroy | Source/OpenGLComponent.cpp:32-35 | The encoder is released without being finished: its session is left exactly as it was. |
| OpenGL.OpenGLComponent.SetSelectedState | Source/OpenGLComponent.h:40-42 | Sets the selected state and keeps the invariant. |
| OpenGL.OpenGLComponent.NewOpenGLContextCreated | Source/OpenGLComponent.cpp:44-55 | Only uninitialised shaders are compiled; the rest are kept. A compiled state is initialised with the program id compiling yields, so every render state is initialised afterwards, whether or not its shaders compiled. A fresh encoder for the fixed path and the component's size replaces the old one, which is dropped unfinished. The new encoder's calls begin with the allocation by file extension and contain no teardown. With no output context they are the two allocation attempts and nothing is active. If its session became active, its calls are exactly SessionOpenCalls and next_pts is 0. Its output context is the allocated format, and have_video is set iff that format has a video codec. When the format has a video codec, the codec context is created and avcodec_open2 succeeds, the session is active iff the file and header steps succeed. |
| OpenGL.OpenGLComponent.StartNewEncoder | Source/OpenGLComponent.cpp:52-53 | The new encoder is fresh, has the fixed output path and the given size, and keeps its invariant. Its first call is the allocation by file extension, and it makes no teardown call. With no output context its calls are the two allocation attempts; once active, they are exactly SessionOpenCalls, at next_pts 0. Its output context is the allocated format, and have_video is set iff that format has a video codec. When the format has a video codec, the codec context is created and avcodec_open2 succeeds, the session is active iff the file and header steps succeed. |
| OpenGL.OpenGLComponent.RenderOpenGL | Source/OpenGLComponent.cpp:57-102 | time advances with wrap-around, and the tick's request is appended to the schedule. A skipped tick, or one that finds the session inactive, leaves the encoder untouched. A finish leaves it inactive and torn down, and appends exactly the flush and teardown calls to its trace. An added frame keeps activity and, on an active session, advances next_pts by one iff the frame could be made writable, whatever the send to the encoder returns; it appends the writability check and, when that passes, the texture copy and the encode calls for a frame stamped with the old next_pts. |
| OpenGL.OpenGLComponent.AdvanceTime | Source/OpenGLComponent.cpp:58 | time advances with wrap-around, and the tick's request, given its guards, is appended to the schedule; the invariant tying time and the schedule to the ticks so far is kept. |
| OpenGL.OpenGLComponent.DriveEncoder | Source/OpenGLComponent.cpp:95-99 | On tick 1000 the session is finished, on earlier ticks a frame is added, and later ticks leave the encoder untouched, with the same effects on the encoder as in RenderOpenGL. |
| Recorder.ChildPath | Source/CreateVideoComponent.h:40-41 | The child path starts with the directory and ends with the name, with at most one separator added. |
| Recorder.ChildPathIsMP4 | Source/CreateVideoComponent.h:38-42 | A path built from an accepted name still ends in ".mp4". |
| Recorder.ContentComponent.constructor | Source/CreateVideoComponent.h:99-104 | All three flags start false; the path button shows "No Path Selected!". |
| Recorder.ContentComponent.OnStartClick | Source/CreateVideoComponent.h:32-50 | Does nothing without an encoder, path and name. Otherwise the encoder gets the child path (an .mp4 path). `state` becomes true iff the start reports success, which includes the no-context case, and is never cleared here. When ready: a click while recording changes neither the session nor its calls. Otherwise the start is attempted: its first call is the allocation by file extension, and with a video codec, a created codec context and a successful avcodec_open2, the session becomes active iff the file and header steps succeed. |
| Recorder.ContentComponent.StartWithFile | Source/CreateVideoComponent.h:42-43 | The encoder gets the file name and keeps its size and invariant. It reports success iff it was inactive and then became active or found no output context. An activated session adds exactly SessionOpenCalls to the trace. An active session stays active with no new call. On an inactive one the start is attempted: the first new call is the allocation by file extension, and with a video codec, a created codec context and a successful avcodec_open2, it becomes active iff the file and header steps succeed. |
| Recorder.ContentComponent.OnFinishClick | Source/CreateVideoComponent.h:51-61 | Does nothing when not recording. Otherwise the encoder ends up inactive (torn down if it was active), and `state` is false whatever finish returned. When recording on an active session, exactly the flush and the teardown calls (trailer, frees, file close iff the format needs a file, output free) are appended to the trace. When recording on an inactive session, the encoder is left untouched. |
| Recorder.ContentComponent.OnPathButtonClick | Source/CreateVideoComponent.h:63-69 | The folder chooser is launched iff no path has been found yet. |
| Recorder.ContentComponent.OnPathChosen | Source/CreateVideoComponent.h:69-76 | A non-empty choice is accepted and shown on the button; a cancelled choice changes nothing. |
| Recorder.ContentComponent.OnFileNameReturnKey | Source/CreateVideoComponent.h:78-86 | A valid name is accepted and the editor locked. Any other text is replaced by the error message, and the found flag keeps its value. |
| Selector.ToUint32 | Source/SelectorTabPanel.cpp:24 | The int-to-unsigned conversion gives the value modulo 2^32 and keeps non-negative values. |
| Selector.ToInt32 | Source/SelectorTabPanel.cpp:23 | The unsigned-to-int conversion is the inverse of ToUint32 and keeps values below 2^31. |
| Selector.Int32RoundTrip | Source/SelectorTabPanel.cpp:23-24 | Converting an int to unsigned and back gives it again. |
| Selector.SizeFieldColour | Source/SelectorTabPanel.cpp:36-58 | Non-numeric text leaves the colour unchanged; an out-of-range number turns it red. A number turns it dark slate grey iff it is in range and even, and red otherwise. |
| Selector.UpdateKeepsSingleVisible | Source/SelectorTabPanel.h:46-60 | If exactly the old profile was visible, after the swap exactly the new one is. |
| Selector.SelectorTabPanel.constructor | Source/SelectorTabPanel.cpp:28-31 | One profile and one preset item per render state, in order. Exactly the profiles of the default state (1) are visible, and the selection is 1. |
| Selector.SelectorTabPanel.AddRenderProfile | Source/SelectorTabPanel.h:36-44 | Appends the profile, visible iff its id, converted to unsigned, equals the selection, and appends its preset item. |
| Selector.SelectorTabPanel.UpdatePanelRenderProfile | Source/SelectorTabPanel.h:46-60 | When both states name a profile, it hides the old one and then shows the new one; nothing else changes. Otherwise nothing changes. |
| Selector.SelectorTabPanel.GetCurrentRenderProfile | Source/SelectorTabPanel.h:62-64 | Returns the profile of the selected render state: its state id and preset name are that state's. It is the visible one when exactly the selected profile is shown. |
| Selector.SelectorTabPanel.OnPresetChange | Source/SelectorTabPanel.cpp:21-26 | The selection moves to the new id converted to unsigned, here and in the GL component, and converts back to that id. When both the old selection (converted to int) and the new id name a profile, the new one is shown, the old one is hidden if it differs, and if exactly the old one was shown then exactly the new one is. Otherwise the profiles do not change. Only visibility ever changes, and only at those two positions. |
| Selector.SelectorTabPanel.OnWidthReturnKey | Source/SelectorTabPanel.cpp:36-58 | The width editor's colour follows SizeFieldColour for 100..1920. An accepted width is not applied anywhere. |
| Selector.SelectorTabPanel.OnHeightReturnKey | Source/SelectorTabPanel.cpp:63-88 | The height editor's colour follows SizeFieldColour for 100..1080. An accepted height is not applied anywhere. |

## Left out

- FFmpeg, CUDA and OpenGL internals are outside the model: encoding itself, pixel data, the texture copy, shader compilation, uniforms, the ring buffer and the audio processor. Their results are parameters, and their calls are trace events.
- Encoder.VideoEncoder.Encode, FinishRecordingSession, Cleanup, AddVideoFrame, RenderOpenGL and OnFinishClick require that the receive results contain one that ends the drain loop. An encoder that yields packets forever, which makes the source loop forever, is not modelled.
- Encoder.VideoEncoder.OpenVideo: opening when no codec context exists counts as a failed open. In the source, avcodec_open2 then receives a null context. This happens on any start, the first included, when initialiseVideo returns before it stores the codec context (encoder `h264_nvenc` not found, or the packet, stream or context allocation failing), since have_video is set all the same. It also happens when have_video survives from an earlier session whose context was freed and the new format has no video codec. That is undefined behaviour, not a clean failure.
- Encoder.VideoEncoder.AttachHardware: after a failed texture registration, the source releases both buffers and then calls av_buffer_ref on the now-null handles, which dereferences null. The model does not capture that crash: it attaches nothing, and initialiseVideo goes on to report success.
- Encoder.VideoEncoder.AddVideoFrame: av_frame_make_writable on a frame that was never allocated is a crash in the source. The model takes its result as a parameter.
- Encoder.VideoEncoder.AddVideoFrame: next_pts is an int64_t; its overflow is not modelled.
- The CUDA results inside addVideoFrame and the stream-parameter copy are ignored by the source, and they leave no trace here beyond the call.
- After cleanup, the source keeps dangling `oc` and `st` handles. The model marks the output context as absent, because the next start always reallocates it.
- The source's headers are not consistent with its code:
  - Source/VideoEncoder.h declares a constructor with a codec argument that the code does not define;
  - the getVideoEncoder and setFileName members used by the recorder window are not declared in any header shown.

  The model follows the code: the recorder reads the GL component's encoder and assigns its file name directly.
- Recorder.ChildPath stands for juce::File::getChildFile and getFullPathName, with '/' as the separator. It does not resolve "..", nor separators inside the name. The name validation rules out separators, but not "..".
- StrHelper.IsMP4 and IsValidFilename count characters, while the source's `toStdString` gives UTF-8 bytes. The two counts differ only for non-ASCII names, and the name class rejects those either way, so neither IsValidFilename nor IsValidVidFileStr changes its result. IsMP4 on its own would throw for fewer non-ASCII strings than the model says; it is only reached on names of at least 5 characters.
- Selector: `std::stoi` is replaced by its outcome (a number, invalid_argument or out_of_range). On out_of_range, the source then reads an uninitialised `i`; the error flag is already set, so the colour is red whatever it reads.
- Selector.SelectorTabPanel.constructor: the change notification that setSelectedId(1) posts is asynchronous and not modelled. Running it would hide and re-show profile 1, set the selection to 1 again, and so change nothing.
- Selector.SelectorTabPanel.UpdatePanelRenderProfile: signed overflow of `newState - 1` or `oldState - 1` at INT_MIN, undefined behaviour in C++, is not modelled. The model computes the difference without bounds, so such a state names no profile.
- RenderOpenGL requires an encoder whenever the tick would finish or add a frame, and OnFinishClick requires one while recording. In both places the source dereferences the encoder without a null check.
- The schedule lemmas FinishRequestedIff, FinishAtMostOnce and FramesRequested hold before `time` wraps, that is, for fewer than 2^32 ticks. FinishAgainAfterWrap shows what happens after the wrap.
- Layout, painting and repaint calls are not modelled; the DBG logging is left out.
- The rest of the repository is not part of this model: the AI assistant, login, plug-in editor and processor, meshes, and the render states' drawing.
- The code has no command hand-off between threads: start and finish run directly from the UI and render callbacks. It has no rollback of a half-built session after a failed start. It does not finish an active session when the render component is destroyed. The model follows the code in all three respects.
- Each handler is modelled as one atomic step. In the source, the recorder and selector handlers run on the message thread, while renderOpenGL and newOpenGLContextCreated run on the GL render thread. They share the encoder's `active` flag and stream state, and `selectedState`, without a lock; for example, startRecordingSession from the start button can interleave with addVideoFrame. Interleavings between the two threads are not modelled.
