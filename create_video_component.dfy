/**
 * The recorder window of Source/CreateVideoComponent.h: the start, finish,
 * path and file-name handlers of ContentComponent and the three flags that
 * gate the calls they make into the render component's encoder. Painting,
 * layout and the folder chooser's dialog are not modelled; the chooser's
 * answer arrives as the argument of its callback.
 */
module Recorder {
  import opened StrHelper
  import opened Encoder
  import opened OpenGL

  const NoPathText := "No Path Selected!"
  const InvalidNameText := "Please enter a valid file name!"
  /** The separator juce::File puts between a directory and a child name. */
  const Separator := '/'

  /**
   * `juce::File(dir).getChildFile(name).getFullPathName()` for a name that
   * holds no separator: the directory, one separator, the name.
   */
  function ChildPath(dir: string, name: string): (p: string)
    ensures |dir| + |name| <= |p| <= |dir| + |name| + 1
    ensures p[..|dir|] == dir && p[|p| - |name|..] == name
  {
    if |dir| > 0 && dir[|dir| - 1] == Separator then dir + name else dir + [Separator] + name
  }

  /** A child path built from an accepted file name still ends in ".mp4". */
  lemma ChildPathIsMP4(dir: string, name: string)
    requires IsValidVidFileStr(name)
    ensures var p := ChildPath(dir, name); |p| >= 4 && p[|p| - 4..] == Mp4Suffix
  {
    var p := ChildPath(dir, name);
    assert p[|p| - 4..] == p[|p| - |name|..][|name| - 4..];
  }

  class ContentComponent {
    const gl: OpenGLComponent
    var state: bool
    var filePathFound: bool
    var fileNameFound: bool
    var fileNameText: string
    var fileNameReadOnly: bool
    var pathButtonText: string

    /**
     * A found name is the valid one the editor was locked on, a found path is
     * the non-empty one shown on the button, and the render component keeps
     * its own invariant.
     */
    ghost predicate Valid()
      reads this, gl, gl.encoder
    {
      && (fileNameFound ==> fileNameReadOnly && IsValidVidFileStr(fileNameText))
      && (filePathFound ==> |pathButtonText| > 0)
      && gl.Valid()
    }

    /** All three flags start false; the path button shows its placeholder. */
    constructor (component: OpenGLComponent)
      requires component.Valid()
      ensures Valid() && gl == component
      ensures !state && !filePathFound && !fileNameFound
      ensures fileNameText == "" && !fileNameReadOnly && pathButtonText == NoPathText
    {
      gl := component;
      state, filePathFound, fileNameFound := false, false, false;
      fileNameText, fileNameReadOnly := "", false;
      pathButtonText := NoPathText;
    }

    /** Both a path and a file name have been accepted, and an encoder exists. */
    ghost predicate Ready()
      reads this, gl
    {
      gl.encoder != null && filePathFound && fileNameFound
    }

    /**
     * startButton.onClick: nothing unless an encoder exists and both a path
     * and a name were accepted; otherwise point the encoder at the chosen
     * file and start it. `state` becomes true only when the start reports
     * success, and stays as it was otherwise.
     */
    method OnStartClick(env: StartEnv)
      requires Valid()
      modifies this`state, gl.encoder
      ensures Valid()
      ensures !old(Ready()) ==> state == old(state) && (gl.encoder != null ==> unchanged(gl.encoder))
      ensures old(Ready()) ==> gl.encoder.fileName == ChildPath(pathButtonText, fileNameText)
      ensures old(Ready()) ==> |gl.encoder.fileName| >= 4 && gl.encoder.fileName[|gl.encoder.fileName| - 4..] == Mp4Suffix
      ensures old(Ready()) ==> gl.encoder.width == old(gl.encoder.width) && gl.encoder.height == old(gl.encoder.height)
      ensures old(Ready()) ==>
                (state <==> old(state) || (!old(gl.encoder.active) && (gl.encoder.active || !ContextAllocated(env))))
      ensures old(Ready()) && !old(gl.encoder.active) && gl.encoder.active ==>
                gl.encoder.trace == old(gl.encoder.trace) + SessionOpenCalls(env, gl.encoder.width, gl.encoder.height)
      ensures old(Ready()) && old(gl.encoder.active) ==> gl.encoder.active && gl.encoder.trace == old(gl.encoder.trace)
      ensures old(Ready()) && !old(gl.encoder.active) ==>
                |gl.encoder.trace| > |old(gl.encoder.trace)| && gl.encoder.trace[|old(gl.encoder.trace)|] == AllocOutput(false)
      ensures old(Ready()) && !old(gl.encoder.active) && SetsUpVideo(env) && ContextCreated(env.init) && env.open.openRet >= 0 ==>
                (gl.encoder.active <==> HeaderWritten(env))
    {
      if gl.encoder == null {
        return;
      }
      if !filePathFound || !fileNameFound {
        return;
      }
      var encoder := gl.encoder;
      var path := ChildPath(pathButtonText, fileNameText);
      ChildPathIsMP4(pathButtonText, fileNameText);
      var started := StartWithFile(encoder, path, env);
      if started {
        state := true;
      }
      assert encoder == gl.encoder;
    }

    /** The end of startButton.onClick: give the encoder the chosen file and start its session. */
    static method StartWithFile(encoder: VideoEncoder, path: string, env: StartEnv) returns (started: bool)
      requires encoder.Valid()
      modifies encoder
      ensures encoder.Valid()
      ensures encoder.fileName == path && encoder.width == old(encoder.width) && encoder.height == old(encoder.height)
      ensures started <==> !old(encoder.active) && (encoder.active || !ContextAllocated(env))
      ensures !old(encoder.active) && encoder.active ==>
                encoder.trace == old(encoder.trace) + SessionOpenCalls(env, encoder.width, encoder.height)
      ensures old(encoder.active) ==> encoder.active && encoder.trace == old(encoder.trace)
      ensures !old(encoder.active) ==>
                |encoder.trace| > |old(encoder.trace)| && encoder.trace[|old(encoder.trace)|] == AllocOutput(false)
      ensures !old(encoder.active) && SetsUpVideo(env) && ContextCreated(env.init) && env.open.openRet >= 0 ==>
                (encoder.active <==> HeaderWritten(env))
    {
      encoder.fileName := path;
      ghost var calls;
      started, calls := encoder.StartRecordingSession(env);
    }

    /**
     * finishButton.onClick: nothing when not recording; otherwise finish the
     * encoder's session, and `state` is false whatever the finish returned.
     * The source dereferences the encoder without a null check here.
     */
    method OnFinishClick(env: FlushEnv)
      requires Valid() && Drains(env.receives)
      requires state ==> gl.encoder != null
      modifies this`state, gl.encoder
      ensures Valid() && !state
      ensures !old(state) ==> gl.encoder == null || unchanged(gl.encoder)
      ensures old(state) ==> !gl.encoder.active
      ensures old(state) && old(gl.encoder.active) ==> gl.encoder.output == None && gl.encoder.videoSt.enc == None
      ensures old(state) && old(gl.encoder.active) ==>
                gl.encoder.trace == old(gl.encoder.trace)
                                    + EncodeCalls(Flush, env.sendRet, env.receives, old(gl.encoder.videoSt.streamIndex))
                                    + TeardownCalls(true, old(gl.encoder.output).value.noFile)
      ensures old(state) && !old(gl.encoder.active) ==> unchanged(gl.encoder)
    {
      if !state {
        return;
      }
      var finished := gl.encoder.FinishRecordingSession(env);
      state := false;
    }

    /**
     * pathNameButton.onClick: the folder chooser is launched only while no
     * path has been found; nothing else changes.
     */
    method OnPathButtonClick() returns (launched: bool)
      ensures launched <==> !filePathFound
    {
      if filePathFound {
        return false;
      }
      return true;
    }

    /**
     * The folder chooser's callback: a non-empty full path name is accepted
     * and shown on the button; an empty one (the dialog was cancelled)
     * changes nothing.
     */
    method OnPathChosen(chosen: string)
      requires Valid()
      modifies this`filePathFound, this`pathButtonText
      ensures Valid()
      ensures |chosen| > 0 ==> filePathFound && pathButtonText == chosen
      ensures |chosen| == 0 ==> unchanged(this`filePathFound, this`pathButtonText)
    {
      if |chosen| > 0 {
        filePathFound := true;
        pathButtonText := chosen;
      }
    }

    /**
     * fileNameEditor.onReturnKey on the editor's text `typed` (a read-only
     * editor still holds the text it was locked on): a valid name is accepted
     * and the editor locked; any other text is replaced by the error message
     * and `fileNameFound` keeps its value.
     */
    method OnFileNameReturnKey(typed: string)
      requires Valid()
      requires fileNameReadOnly ==> typed == fileNameText
      modifies this`fileNameFound, this`fileNameReadOnly, this`fileNameText
      ensures Valid()
      ensures IsValidVidFileStr(typed) ==> fileNameFound && fileNameReadOnly && fileNameText == typed
      ensures !IsValidVidFileStr(typed) ==>
                fileNameText == InvalidNameText && fileNameFound == old(fileNameFound)
                && fileNameReadOnly == old(fileNameReadOnly)
    {
      fileNameText := typed;
      if IsValidVidFileStr(fileNameText) {
        fileNameFound := true;
        fileNameReadOnly := true;
      } else {
        fileNameText := InvalidNameText;
      }
    }
  }
}
