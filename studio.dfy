/**
 * The selection and record state machine of the Reviewer studio screen
 * (`StudioViewController`): the movie resolution and frame rate chosen on two segmented
 * controls, the capture mode, the record toggle with the controls it hides, and the
 * suspend/resume pairing of the session queue around the camera permission prompt. What it
 * asks of `StudioViewModel` is recorded, in order, in a ghost log.
 */
module StudioView {
  import opened Wrappers

  datatype SessionSetupResult = Success | NotAuthorized | ConfigurationFailed
  datatype MovieResolution = Hd | Hd4k
  datatype MovieFrameRate = Thirty | Sixty
  datatype ZoomFactor = One | OneAndHalf | Two
  datatype CaptureMode = Photo | Movie
  datatype AuthorizationStatus = Authorized | NotDetermined | Denied | Restricted

  /** The calls the controller makes on its view model. */
  datatype StudioCall =
    | SetSession
    | IntegrateCaptureSession
    | StartSessionRunning
    | StopSessionRunning
    | LoadTitle
    | ChangeZoomFactor(zoomFactor: ZoomFactor)
    /** `didChangeResolution(frameRate:resolution:previewView:)` */
    | ChangeResolution(frameRate: MovieFrameRate, resolution: MovieResolution)
    /** `didChange(frameRate:resolution:previewView:)` */
    | ChangeFrameRate(frameRate: MovieFrameRate, resolution: MovieResolution)
    | ChangeCapture(mode: CaptureMode)
    | DidRecord
    | RunTimer
    | CancelTimer
    | SuspendSessionQueue
    | ResumeSessionQueue

  /** The segments of the zoom control: "1.0x", "1.5x", "2.0x". */
  function ZoomFactorOfSegment(index: int): (z: Option<ZoomFactor>)
    ensures z.Some? <==> 0 <= index <= 2
  {
    if index == 0 then Some(One)
    else if index == 1 then Some(OneAndHalf)
    else if index == 2 then Some(Two)
    else None
  }

  /** The segments of the resolution control: "HD", "4K". */
  function ResolutionOfSegment(index: int): (r: Option<MovieResolution>)
    ensures r.Some? <==> 0 <= index <= 1
  {
    if index == 0 then Some(Hd) else if index == 1 then Some(Hd4k) else None
  }

  /** The segments of the frame-rate control: "30", "60". */
  function FrameRateOfSegment(index: int): (f: Option<MovieFrameRate>)
    ensures f.Some? <==> 0 <= index <= 1
  {
    if index == 0 then Some(Thirty) else if index == 1 then Some(Sixty) else None
  }

  /** The segments of the capture-mode control: camera, movie clapper. */
  function CaptureModeOfSegment(index: int): (m: Option<CaptureMode>)
    ensures m.Some? <==> 0 <= index <= 1
  {
    if index == 0 then Some(Photo) else if index == 1 then Some(Movie) else None
  }

  /** Every zoom factor has exactly one segment. */
  function SegmentOfZoomFactor(z: ZoomFactor): (index: int)
    ensures ZoomFactorOfSegment(index) == Some(z)
    ensures forall i :: ZoomFactorOfSegment(i) == Some(z) ==> i == index
  {
    match z
    case One => 0
    case OneAndHalf => 1
    case Two => 2
  }

  /** Every resolution has exactly one segment. */
  function SegmentOfResolution(r: MovieResolution): (index: int)
    ensures ResolutionOfSegment(index) == Some(r)
    ensures forall i :: ResolutionOfSegment(i) == Some(r) ==> i == index
  {
    match r
    case Hd => 0
    case Hd4k => 1
  }

  /** Every frame rate has exactly one segment. */
  function SegmentOfFrameRate(f: MovieFrameRate): (index: int)
    ensures FrameRateOfSegment(index) == Some(f)
    ensures forall i :: FrameRateOfSegment(i) == Some(f) ==> i == index
  {
    match f
    case Thirty => 0
    case Sixty => 1
  }

  /** How many times `x` occurs in `s`. */
  function Occurrences<T(==)>(s: seq<T>, x: T): nat {
    if s == [] then 0 else (if s[0] == x then 1 else 0) + Occurrences(s[1..], x)
  }

  /** Appending one call adds one occurrence of that call and none of any other. */
  lemma {:induction false} OccurrencesAppend<T>(s: seq<T>, y: T, x: T)
    ensures Occurrences(s + [y], x) == Occurrences(s, x) + (if x == y then 1 else 0)
  {
    if s != [] {
      assert (s + [y])[1..] == s[1..] + [y];
      OccurrencesAppend(s[1..], y, x);
    } else {
      assert [y][1..] == [];
    }
  }

  class StudioViewController {
    var setupResult: SessionSetupResult
    var movieResolution: MovieResolution
    var movieFrameRate: MovieFrameRate
    var isRecord: bool
    /** `captureModeSegmentedControl.selectedSegmentIndex` */
    var captureModeSegment: int
    var captureButtonHidden: bool
    var recordButtonHidden: bool
    var movieResolutionControlHidden: bool
    var frameRateControlHidden: bool
    var captureModeControlHidden: bool
    var recordTimerLabelHidden: bool
    /** Permission prompts shown whose answer has not arrived yet. */
    ghost var pendingPrompts: nat
    /** Calls made on the view model, oldest first. */
    ghost var calls: seq<StudioCall>

    /**
     * Every suspension of the session queue is matched by one resumption, except those of the
     * prompts still waiting; the timer has been started once more than it was cancelled
     * exactly while recording, and every `didRecord` came with one start or one cancel, so
     * the taps alternate between starting and stopping.
     */
    ghost predicate Valid()
      reads this
    {
      && Occurrences(calls, SuspendSessionQueue) == Occurrences(calls, ResumeSessionQueue) + pendingPrompts
      && Occurrences(calls, RunTimer) == Occurrences(calls, CancelTimer) + (if isRecord then 1 else 0)
      && Occurrences(calls, DidRecord) == Occurrences(calls, RunTimer) + Occurrences(calls, CancelTimer)
    }

    constructor ()
      ensures Valid()
      ensures setupResult == SessionSetupResult.Success && movieResolution == Hd && movieFrameRate == Thirty && !isRecord
      ensures captureModeSegment == 0 && pendingPrompts == 0 && calls == []
    {
      setupResult := SessionSetupResult.Success;
      movieResolution := Hd;
      movieFrameRate := Thirty;
      isRecord := false;
      captureModeSegment := 0;
      captureButtonHidden := false;
      recordButtonHidden := false;
      movieResolutionControlHidden := false;
      frameRateControlHidden := false;
      captureModeControlHidden := false;
      recordTimerLabelHidden := false;
      pendingPrompts := 0;
      calls := [];
    }

    /** `shouldAutorotate`: the screen may rotate exactly when no movie is being recorded. */
    function ShouldAutorotate(): (rotates: bool)
      reads this
      ensures rotates <==> !isRecord
    {
      !isRecord
    }

    /** Appends one call to the log, keeping track of the counts `Valid` relates. */
    method Log(c: StudioCall)
      modifies this`calls
      ensures calls == old(calls) + [c]
      ensures Occurrences(calls, SuspendSessionQueue) == Occurrences(old(calls), SuspendSessionQueue) + (if c == SuspendSessionQueue then 1 else 0)
      ensures Occurrences(calls, ResumeSessionQueue) == Occurrences(old(calls), ResumeSessionQueue) + (if c == ResumeSessionQueue then 1 else 0)
      ensures Occurrences(calls, RunTimer) == Occurrences(old(calls), RunTimer) + (if c == RunTimer then 1 else 0)
      ensures Occurrences(calls, CancelTimer) == Occurrences(old(calls), CancelTimer) + (if c == CancelTimer then 1 else 0)
      ensures Occurrences(calls, DidRecord) == Occurrences(old(calls), DidRecord) + (if c == DidRecord then 1 else 0)
    {
      OccurrencesAppend(calls, c, SuspendSessionQueue);
      OccurrencesAppend(calls, c, ResumeSessionQueue);
      OccurrencesAppend(calls, c, RunTimer);
      OccurrencesAppend(calls, c, CancelTimer);
      OccurrencesAppend(calls, c, DidRecord);
      calls := calls + [c];
    }

    /**
     * `checkAuthorizationStatus`, given the camera's authorization status: an undetermined
     * status suspends the session queue until the prompt is answered; any status other than
     * authorized or undetermined marks the setup as not authorized.
     */
    method CheckAuthorizationStatus(status: AuthorizationStatus)
      requires Valid()
      modifies this`calls, this`pendingPrompts, this`setupResult
      ensures Valid()
      ensures status == Authorized ==>
        calls == old(calls) && pendingPrompts == old(pendingPrompts) && setupResult == old(setupResult)
      ensures status == NotDetermined ==>
        calls == old(calls) + [SuspendSessionQueue] && pendingPrompts == old(pendingPrompts) + 1 &&
        setupResult == old(setupResult)
      ensures status in {Denied, Restricted} ==>
        calls == old(calls) && pendingPrompts == old(pendingPrompts) && setupResult == NotAuthorized
    {
      match status
      case Authorized =>
      case NotDetermined =>
        Log(SuspendSessionQueue);
        pendingPrompts := pendingPrompts + 1;
      case _ =>
        setupResult := NotAuthorized;
    }

    /**
     * The completion handler of `requestAccess(for: .video)`: a refusal marks the setup as not
     * authorized, and either way the session queue resumes once.
     */
    method AccessRequestAnswered(granted: bool)
      requires Valid() && pendingPrompts > 0
      modifies this`calls, this`pendingPrompts, this`setupResult
      ensures Valid()
      ensures calls == old(calls) + [ResumeSessionQueue] && pendingPrompts == old(pendingPrompts) - 1
      ensures setupResult == if granted then old(setupResult) else NotAuthorized
    {
      if !granted {
        setupResult := NotAuthorized;
      }
      Log(ResumeSessionQueue);
      pendingPrompts := pendingPrompts - 1;
    }

    /**
     * The state-machine part of `viewDidLoad`: the authorization check, the movie controls,
     * the timer label and the record button hidden, and the title requested.
     */
    method ViewDidLoad(status: AuthorizationStatus)
      requires Valid()
      modifies this`calls, this`pendingPrompts, this`setupResult, this`movieResolutionControlHidden,
        this`frameRateControlHidden, this`recordTimerLabelHidden, this`recordButtonHidden
      ensures Valid()
      ensures pendingPrompts == old(pendingPrompts) + (if status == NotDetermined then 1 else 0)
      ensures movieResolutionControlHidden && frameRateControlHidden && recordTimerLabelHidden && recordButtonHidden
      ensures status == NotDetermined ==> calls == old(calls) + [SuspendSessionQueue] + [LoadTitle]
      ensures status != NotDetermined ==> calls == old(calls) + [LoadTitle]
      ensures setupResult == if status in {Denied, Restricted} then NotAuthorized else old(setupResult)
      ensures movieResolution == old(movieResolution) && movieFrameRate == old(movieFrameRate)
      ensures isRecord == old(isRecord) && captureModeSegment == old(captureModeSegment)
    {
      CheckAuthorizationStatus(status);
      movieResolutionControlHidden := true;
      frameRateControlHidden := true;
      recordTimerLabelHidden := true;
      recordButtonHidden := true;
      Log(LoadTitle);
    }

    /** Sets the session on the preview, configures it with `configure`, and starts it. */
    method StartSession(configure: StudioCall)
      requires Valid()
      requires configure.IntegrateCaptureSession? || configure.ChangeFrameRate?
      modifies this`calls
      ensures Valid()
      ensures calls == old(calls) + [SetSession] + [configure] + [StartSessionRunning]
    {
      Log(SetSession);
      Log(configure);
      Log(StartSessionRunning);
    }

    /**
     * `viewDidAppear`: in photo mode the photo session; in movie mode the session set to the
     * current frame rate and resolution; then the session starts.
     */
    method ViewDidAppear()
      requires Valid()
      modifies this`calls
      ensures Valid()
      ensures captureModeSegment == 0 ==>
        calls == old(calls) + [SetSession] + [IntegrateCaptureSession] + [StartSessionRunning]
      ensures captureModeSegment == 1 ==>
        calls == old(calls) + [SetSession] + [ChangeFrameRate(movieFrameRate, movieResolution)] +
          [StartSessionRunning]
      ensures captureModeSegment !in {0, 1} ==> calls == old(calls)
    {
      if captureModeSegment == 0 {
        StartSession(IntegrateCaptureSession);
      } else if captureModeSegment == 1 {
        if movieResolution == Hd && movieFrameRate == Thirty {
          StartSession(ChangeFrameRate(Thirty, Hd));
        } else if movieResolution == Hd && movieFrameRate == Sixty {
          StartSession(ChangeFrameRate(Sixty, Hd));
        } else if movieResolution == Hd4k && movieFrameRate == Thirty {
          StartSession(ChangeFrameRate(Thirty, Hd4k));
        } else if movieResolution == Hd4k && movieFrameRate == Sixty {
          StartSession(ChangeFrameRate(Sixty, Hd4k));
        }
      }
    }

    /** `viewWillDisappear`: the session stops. */
    method ViewWillDisappear()
      requires Valid()
      modifies this`calls
      ensures Valid()
      ensures calls == old(calls) + [StopSessionRunning]
    {
      Log(StopSessionRunning);
    }

    /** `didSelectZoomFactor`: forwards the factor of the chosen segment, if any. */
    method DidSelectZoomFactor(index: int)
      requires Valid()
      modifies this`calls
      ensures Valid()
      ensures calls == old(calls) + match ZoomFactorOfSegment(index) {
        case Some(z) => [ChangeZoomFactor(z)]
        case None => []
      }
    {
      match index
      case 0 => Log(ChangeZoomFactor(One));
      case 1 => Log(ChangeZoomFactor(OneAndHalf));
      case 2 => Log(ChangeZoomFactor(Two));
      case _ =>
    }

    /**
     * `didSelectResolution`: the chosen resolution becomes current and is forwarded with the
     * current frame rate, which does not change; any other segment index changes nothing.
     */
    method DidSelectResolution(index: int)
      requires Valid()
      modifies this`movieResolution, this`calls
      ensures Valid()
      ensures movieFrameRate == old(movieFrameRate)
      ensures ResolutionOfSegment(index).Some? ==>
        movieResolution == ResolutionOfSegment(index).value &&
        calls == old(calls) + [ChangeResolution(movieFrameRate, movieResolution)]
      ensures ResolutionOfSegment(index).None? ==>
        movieResolution == old(movieResolution) && calls == old(calls)
    {
      if movieFrameRate == Thirty && index == 0 {
        movieResolution := Hd;
        Log(ChangeResolution(Thirty, Hd));
      } else if movieFrameRate == Sixty && index == 0 {
        movieResolution := Hd;
        Log(ChangeResolution(Sixty, Hd));
      } else if movieFrameRate == Thirty && index == 1 {
        movieResolution := Hd4k;
        Log(ChangeResolution(Thirty, Hd4k));
      } else if movieFrameRate == Sixty && index == 1 {
        movieResolution := Hd4k;
        Log(ChangeResolution(Sixty, Hd4k));
      }
    }

    /**
     * `didSelectFrameRate`: the chosen frame rate becomes current and is forwarded with the
     * current resolution, which does not change; any other segment index changes nothing.
     */
    method DidSelectFrameRate(index: int)
      requires Valid()
      modifies this`movieFrameRate, this`calls
      ensures Valid()
      ensures movieResolution == old(movieResolution)
      ensures FrameRateOfSegment(index).Some? ==>
        movieFrameRate == FrameRateOfSegment(index).value &&
        calls == old(calls) + [ChangeFrameRate(movieFrameRate, movieResolution)]
      ensures FrameRateOfSegment(index).None? ==>
        movieFrameRate == old(movieFrameRate) && calls == old(calls)
    {
      if movieResolution == Hd && index == 0 {
        movieFrameRate := Thirty;
        Log(ChangeFrameRate(Thirty, Hd));
      } else if movieResolution == Hd && index == 1 {
        movieFrameRate := Sixty;
        Log(ChangeFrameRate(Sixty, Hd));
      } else if movieResolution == Hd4k && index == 0 {
        movieFrameRate := Thirty;
        Log(ChangeFrameRate(Thirty, Hd4k));
      } else if movieResolution == Hd4k && index == 1 {
        movieFrameRate := Sixty;
        Log(ChangeFrameRate(Sixty, Hd4k));
      }
    }

    /**
     * `didSelectCaptureMode`, after the control moved to segment `index`: photo mode shows the
     * shutter and hides the movie controls, movie mode the reverse; other indexes only move
     * the control.
     */
    method DidSelectCaptureMode(index: int)
      requires Valid()
      modifies this`captureModeSegment, this`captureButtonHidden, this`recordButtonHidden,
        this`movieResolutionControlHidden, this`frameRateControlHidden, this`recordTimerLabelHidden,
        this`calls
      ensures Valid()
      ensures captureModeSegment == index
      ensures CaptureModeOfSegment(index).Some? ==>
        var movie := CaptureModeOfSegment(index).value == Movie;
        captureButtonHidden == movie && recordButtonHidden == !movie &&
        movieResolutionControlHidden == !movie && frameRateControlHidden == !movie &&
        recordTimerLabelHidden == !movie &&
        calls == old(calls) + [ChangeCapture(CaptureModeOfSegment(index).value)]
      ensures CaptureModeOfSegment(index).None? ==>
        captureButtonHidden == old(captureButtonHidden) && recordButtonHidden == old(recordButtonHidden) &&
        movieResolutionControlHidden == old(movieResolutionControlHidden) &&
        frameRateControlHidden == old(frameRateControlHidden) &&
        recordTimerLabelHidden == old(recordTimerLabelHidden) && calls == old(calls)
    {
      captureModeSegment := index;
      match index
      case 0 =>
        captureButtonHidden := false;
        recordButtonHidden := true;
        movieResolutionControlHidden := true;
        frameRateControlHidden := true;
        recordTimerLabelHidden := true;
        Log(ChangeCapture(Photo));
      case 1 =>
        captureButtonHidden := true;
        recordButtonHidden := false;
        movieResolutionControlHidden := false;
        frameRateControlHidden := false;
        recordTimerLabelHidden := false;
        Log(ChangeCapture(Movie));
      case _ =>
    }

    /**
     * The record button's action: each tap flips `isRecord` and reports it; starting a
     * recording hides the resolution, frame-rate and capture-mode controls and runs the
     * timer, stopping one shows them again and cancels the timer.
     */
    method TapRecord()
      requires Valid()
      modifies this`isRecord, this`movieResolutionControlHidden, this`frameRateControlHidden,
        this`captureModeControlHidden, this`calls
      ensures Valid()
      ensures isRecord == !old(isRecord)
      ensures movieResolutionControlHidden == isRecord && frameRateControlHidden == isRecord
      ensures captureModeControlHidden == isRecord
      ensures calls == old(calls) + [DidRecord] + [if isRecord then RunTimer else CancelTimer]
    {
      isRecord := !isRecord;
      Log(DidRecord);
      movieResolutionControlHidden := isRecord;
      frameRateControlHidden := isRecord;
      captureModeControlHidden := isRecord;
      if isRecord {
        Log(RunTimer);
      } else {
        Log(CancelTimer);
      }
    }
  }

  /**
   * The camera-permission round trip of a first launch: the view loads while the status is
   * undetermined, so the session queue is suspended and one prompt is shown; its answer
   * resumes the queue, leaving no prompt pending, and a refusal marks the setup as not
   * authorized.
   */
  method FirstLaunchPrompt(granted: bool) returns (c: StudioViewController)
    ensures c.Valid() && c.pendingPrompts == 0
    ensures c.calls == [SuspendSessionQueue, LoadTitle, ResumeSessionQueue]
    ensures c.setupResult == if granted then SessionSetupResult.Success else NotAuthorized
  {
    c := new StudioViewController();
    c.ViewDidLoad(NotDetermined);
    c.AccessRequestAnswered(granted);
  }
}
