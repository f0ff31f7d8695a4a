/**
 * The recorder's control state: the recording and buffering flags, the
 * selected devices, the per-device session lists and replay queues, the
 * buffer-duration setting, the countdown and the two hotkeys. Stream
 * callbacks, timer ticks and user commands are modelled as sequential method
 * calls on one object.
 */
module Recorder {
  import opened Text
  import opened Audio
  import opened Devices
  import opened Replay
  import opened Export
  import opened Hotkeys

  datatype Option<T> = None | Some(value: T)

  /** Result of a buffering start. */
  datatype BufferStart =
    | AlreadyBuffering   // nothing done
    | NoDevices          // raised: no selected devices; nothing done
    | BufferingStarted

  /** Result of a recording start. */
  datatype StartOutcome =
    | NoSelection                               // nothing selected in the list
    | NoUsableDevice(rejected: seq<string>)     // every selected device failed its check
    | BadTimer                                  // timer on, value not a positive integer
    | RecordingStarted(skipped: seq<string>)    // devices left out of the recording

  /** Result of one countdown step. */
  datatype TickOutcome =
    | Counting       // one second elapsed
    | TimerStopped   // the countdown reached zero: recording stopped
    | TimerIdle      // recording was already off: the timer ends

  /**
   * `{idx: [] for idx in ids}`: an empty list for each device (a session's
   * chunk lists, or the replay queues as a buffering worker creates them).
   */
  function EmptyLists<T>(ids: set<DeviceId>): (m: map<DeviceId, seq<T>>)
    ensures m.Keys == ids
    ensures forall d :: d in m ==> m[d] == []
  {
    map d | d in ids :: []
  }

  /** The timer setting a recording start accepts: off, or a positive number of seconds. */
  predicate TimerAccepted(useTimer: bool, timerEntry: Option<int>)
  {
    useTimer ==> timerEntry.Some? && timerEntry.value > 0
  }

  /**
   * The countdown after the timer step of a recording start: zero with the
   * timer off; the entered value whenever it parses as an integer, even one
   * that is then refused; unchanged when it does not parse.
   */
  function CountdownAfter(useTimer: bool, timerEntry: Option<int>, current: int): (c: int)
    ensures !useTimer ==> c == 0
    ensures useTimer && timerEntry.None? ==> c == current
    ensures useTimer && timerEntry.Some? ==> c == timerEntry.value
    ensures TimerAccepted(useTimer, timerEntry) ==> (c > 0 <==> useTimer)
  {
    if !useTimer then 0
    else match timerEntry
      case None => current
      case Some(seconds) => seconds
  }

  const DefaultOutputDir: string := "C:\\MultiTrackRecorder"
  const DefaultBufferMinutes: int := 2
  const DefaultHotkey: string := "shift+f10"
  const DefaultRecordHotkey: string := "ctrl+shift+r"

  /** Hotkeys of different lengths never clash; the two defaults are such a pair. */
  lemma LengthsDiffer(a: string, b: string)
    requires |a| != |b|
    ensures !SameHotkey(a, b)
  {
    assert |Lower(a)| != |Lower(b)|;
  }

  class AudioRecorder {
    var isRecording: bool
    var isBuffering: bool
    var selectedInputs: set<DeviceId>
    /** Per device, the chunks delivered while recording, in arrival order. */
    var audioData: map<DeviceId, seq<Chunk>>
    /** Per device, the instant-replay queue. */
    var bufferQueue: map<DeviceId, seq<Row>>
    /** Cleared on every buffering start and stop and otherwise unused. */
    var bufferData: map<DeviceId, seq<Row>>
    /** The maximum length the replay queues were created with. */
    var replayCapacity: nat
    /** The buffer-duration slider, in minutes (1 to 20). */
    var bufferDuration: int
    /** The duration last accepted while buffering was off. */
    var lastBufferDuration: int
    var countdownSeconds: int
    var instantReplay: bool
    var hotkey: string
    var recordHotkey: string
    var outputDir: string

    /**
     * The state every operation keeps: the slider always shows the accepted
     * duration; no replay queue is longer than its maximum; queues created for
     * an active buffering have the capacity of the accepted duration; the two
     * hotkeys differ.
     */
    ghost predicate Valid()
      reads this
    {
      && 1 <= lastBufferDuration <= 20
      && bufferDuration == lastBufferDuration
      && (forall d :: d in bufferQueue ==> |bufferQueue[d]| <= replayCapacity)
      && (isBuffering && bufferQueue != map[] ==> replayCapacity == ReplayCapacity(lastBufferDuration))
      && !SameHotkey(hotkey, recordHotkey)
    }

    /** The buffers as a buffering start leaves them. */
    ghost predicate BuffersReset(workerAlive: bool)
      reads this
    {
      && isBuffering == !workerAlive
      && lastBufferDuration >= 0
      && bufferData == map[]
      && bufferQueue == EmptyLists(selectedInputs)
      && replayCapacity == ReplayCapacity(lastBufferDuration)
    }

    constructor ()
      ensures Valid()
      ensures !isRecording && !isBuffering && !instantReplay
      ensures selectedInputs == {} && audioData == map[] && bufferQueue == map[] && bufferData == map[]
      ensures bufferDuration == lastBufferDuration == DefaultBufferMinutes && countdownSeconds == 0
      ensures hotkey == DefaultHotkey && recordHotkey == DefaultRecordHotkey
      ensures outputDir == DefaultOutputDir
    {
      isRecording, isBuffering, instantReplay := false, false, false;
      selectedInputs := {};
      audioData, bufferQueue, bufferData := map[], map[], map[];
      replayCapacity := 0;
      bufferDuration, lastBufferDuration := DefaultBufferMinutes, DefaultBufferMinutes;
      countdownSeconds := 0;
      hotkey, recordHotkey := DefaultHotkey, DefaultRecordHotkey;
      outputDir := DefaultOutputDir;
      new;
      LengthsDiffer(hotkey, recordHotkey);
    }

    /**
     * The slider moved to `minutes`. While buffering the move is undone and
     * the accepted duration stays; otherwise the new duration is accepted.
     */
    method OnBufferDurationChange(minutes: int) returns (rejected: bool)
      requires Valid() && 1 <= minutes <= 20
      modifies this`bufferDuration, this`lastBufferDuration
      ensures Valid()
      ensures rejected == isBuffering
      ensures isBuffering ==> lastBufferDuration == old(lastBufferDuration) && bufferDuration == old(lastBufferDuration)
      ensures !isBuffering ==> lastBufferDuration == minutes && bufferDuration == minutes
    {
      bufferDuration := minutes;
      if isBuffering {
        bufferDuration := lastBufferDuration;
        rejected := true;
      } else {
        lastBufferDuration := bufferDuration;
        rejected := false;
      }
    }

    /**
     * The buffering worker's set-up: one empty queue per selected device,
     * all with the maximum length of the slider's duration.
     */
    method CreateReplayQueues()
      requires Valid()
      modifies this`bufferQueue, this`replayCapacity
      ensures Valid()
      ensures replayCapacity == ReplayCapacity(bufferDuration)
      ensures bufferQueue == EmptyLists(selectedInputs)
    {
      replayCapacity := ReplayCapacity(bufferDuration);
      bufferQueue := EmptyLists(selectedInputs);
    }

    /** Buffering off: the flag and both buffer maps are cleared; a no-op when already off. */
    method StopBuffering()
      requires Valid()
      modifies this`isBuffering, this`bufferQueue, this`bufferData
      ensures Valid()
      ensures !isBuffering
      ensures !old(isBuffering) ==> bufferQueue == old(bufferQueue) && bufferData == old(bufferData)
      ensures old(isBuffering) ==> bufferQueue == map[] && bufferData == map[]
    {
      if !isBuffering {
        return;
      }
      isBuffering := false;
      bufferQueue := map[];
      bufferData := map[];
    }

    /**
     * Buffering on. A no-op when already buffering; refused without a change
     * when no device is selected. Otherwise the flag is set and both maps
     * emptied; if the previous buffering worker is still alive
     * (`workerAlive`), buffering is stopped again before the new worker
     * creates its queues.
     */
    method StartBuffering(workerAlive: bool) returns (r: BufferStart)
      requires Valid()
      modifies this`isBuffering, this`bufferData, this`bufferQueue, this`replayCapacity
      ensures Valid()
      ensures old(isBuffering) ==>
        r == AlreadyBuffering && unchanged(this`isBuffering, this`bufferData, this`bufferQueue, this`replayCapacity)
      ensures !old(isBuffering) && selectedInputs == {} ==>
        r == NoDevices && unchanged(this`isBuffering, this`bufferData, this`bufferQueue, this`replayCapacity)
      ensures !old(isBuffering) && selectedInputs != {} ==> r == BufferingStarted && BuffersReset(workerAlive)
    {
      if isBuffering {
        return AlreadyBuffering;
      }
      if selectedInputs == {} {
        return NoDevices;
      }
      isBuffering := true;
      bufferData := map[];
      bufferQueue := map[];
      if workerAlive {
        StopBuffering();
      }
      CreateReplayQueues();
      r := BufferingStarted;
    }

    /**
     * A buffering stream delivered `rows` for device `d`: while buffering and
     * when `d` has a queue, the rows extend that queue; nothing else changes.
     */
    method BufferCallback(d: DeviceId, rows: seq<Row>)
      requires Valid()
      modifies this`bufferQueue
      ensures Valid()
      ensures isBuffering && d in old(bufferQueue) ==>
        bufferQueue == old(bufferQueue)[d := Window(old(bufferQueue)[d] + rows, replayCapacity)]
      ensures !(isBuffering && d in old(bufferQueue)) ==> bufferQueue == old(bufferQueue)
      ensures bufferQueue.Keys == old(bufferQueue).Keys
      ensures forall e :: e in old(bufferQueue) && e != d ==> bufferQueue[e] == old(bufferQueue)[e]
    {
      if isBuffering && d in bufferQueue {
        var extended := ExtendBounded(bufferQueue[d], rows, replayCapacity);
        bufferQueue := bufferQueue[d := extended];
      }
    }

    /**
     * A recording stream delivered `chunk` for device `d`: while recording it
     * is appended to that device's list. `ok` is false when recording and `d`
     * has no list (the lookup raises); nothing changes then.
     */
    method AudioCallback(d: DeviceId, chunk: Chunk) returns (ok: bool)
      modifies this`audioData
      ensures ok == (!isRecording || d in old(audioData))
      ensures isRecording && d in old(audioData) ==>
        audioData == old(audioData)[d := old(audioData)[d] + [chunk]]
      ensures !(isRecording && d in old(audioData)) ==> audioData == old(audioData)
      ensures audioData.Keys == old(audioData).Keys
      ensures forall e :: e in old(audioData) && e != d ==> audioData[e] == old(audioData)[e]
    {
      if isRecording {
        if d !in audioData {
          return false;
        }
        audioData := audioData[d := audioData[d] + [chunk]];
      }
      ok := true;
    }

    /**
     * Input-device validation for instant replay: refused without a change
     * when nothing is selected; otherwise the selection's "Input" rows become
     * the selected devices, and it succeeds when there is at least one.
     */
    method ValidateInputDevices(selection: seq<ListedDevice>) returns (ok: bool)
      modifies this`selectedInputs
      ensures selection == [] ==> !ok && selectedInputs == old(selectedInputs)
      ensures selection != [] ==> selectedInputs == InputIndices(selection) && ok == (selectedInputs != {})
    {
      if selection == [] {
        return false;
      }
      selectedInputs := InputIndices(selection);
      ok := selectedInputs != {};
    }

    /**
     * The instant-replay checkbox was set to `checked`. Switching it on
     * validates the selection (unticking the box when that fails) and starts
     * buffering; switching it off stops buffering.
     */
    method ToggleInstantReplay(checked: bool, selection: seq<ListedDevice>, workerAlive: bool)
      requires Valid()
      modifies this`instantReplay, this`selectedInputs,
        this`isBuffering, this`bufferData, this`bufferQueue, this`replayCapacity
      ensures Valid()
      ensures checked && (selection == [] || InputIndices(selection) == {}) ==>
        !instantReplay &&
        unchanged(this`isBuffering, this`bufferData, this`bufferQueue, this`replayCapacity)
      ensures checked && selection == [] ==> selectedInputs == old(selectedInputs)
      ensures checked && selection != [] ==> selectedInputs == InputIndices(selection)
      ensures checked && InputIndices(selection) != {} && old(isBuffering) ==>
        instantReplay && unchanged(this`isBuffering, this`bufferData, this`bufferQueue, this`replayCapacity)
      ensures checked && InputIndices(selection) != {} && !old(isBuffering) ==>
        instantReplay && BuffersReset(workerAlive)
      ensures !checked ==> !instantReplay && !isBuffering && selectedInputs == old(selectedInputs)
      ensures !checked && old(isBuffering) ==>
        bufferQueue == map[] && bufferData == map[] && unchanged(this`replayCapacity)
      ensures !checked && !old(isBuffering) ==> unchanged(this`bufferData, this`bufferQueue, this`replayCapacity)
    {
      instantReplay := checked;
      if checked {
        var ok := ValidateInputDevices(selection);
        if !ok {
          instantReplay := false;
          return;
        }
        // the validation leaves at least one selected device, so this starts
        // buffering or finds it already on
        var _ := StartBuffering(workerAlive);
      } else {
        StopBuffering();
      }
    }

    /**
     * Start of a recording. Refused without a change when nothing is selected.
     * Otherwise the selected devices become exactly those that pass the query
     * and probe; refused when there are none, or when the timer is on and its
     * value is not a positive integer. On success every selected device gets
     * an empty chunk list, recording is on, and buffering starts too when
     * instant replay is on.
     */
    method StartRecording(selection: seq<ListedDevice>, catalog: Catalog, useTimer: bool,
                          timerEntry: Option<int>, workerAlive: bool)
      returns (outcome: StartOutcome)
      requires Valid()
      modifies this`selectedInputs, this`countdownSeconds, this`audioData, this`isRecording,
        this`isBuffering, this`bufferData, this`bufferQueue, this`replayCapacity
      ensures Valid()
      ensures selection == [] ==> outcome == NoSelection && selectedInputs == old(selectedInputs)
      ensures selection != [] ==> selectedInputs == UsableIndices(selection, catalog)
      ensures outcome == NoSelection || outcome.NoUsableDevice? ==> countdownSeconds == old(countdownSeconds)
      ensures selection != [] && selectedInputs == {} ==> outcome == NoUsableDevice(RejectedNames(selection, catalog))
      ensures selection != [] && selectedInputs != {} ==>
        countdownSeconds == CountdownAfter(useTimer, timerEntry, old(countdownSeconds))
      ensures selection != [] && selectedInputs != {} && !TimerAccepted(useTimer, timerEntry) ==> outcome == BadTimer
      ensures outcome.RecordingStarted? <==>
        selection != [] && selectedInputs != {} && TimerAccepted(useTimer, timerEntry)
      ensures !outcome.RecordingStarted? ==>
        unchanged(this`isRecording, this`audioData, this`isBuffering, this`bufferData, this`bufferQueue, this`replayCapacity)
      ensures outcome.RecordingStarted? ==>
        isRecording && audioData == EmptyLists(selectedInputs) && outcome.skipped == RejectedNames(selection, catalog)
      ensures outcome.RecordingStarted? && (!instantReplay || old(isBuffering)) ==>
        unchanged(this`isBuffering, this`bufferData, this`bufferQueue, this`replayCapacity)
      ensures outcome.RecordingStarted? && instantReplay && !old(isBuffering) ==> BuffersReset(workerAlive)
    {
      if selection == [] {
        return NoSelection;
      }
      var usable, rejected := ProbeSelection(selection, catalog);
      selectedInputs := usable;
      if usable == {} {
        return NoUsableDevice(rejected);
      }
      countdownSeconds := CountdownAfter(useTimer, timerEntry, countdownSeconds);
      if !TimerAccepted(useTimer, timerEntry) {
        return BadTimer;
      }
      BeginSession(workerAlive);
      outcome := RecordingStarted(rejected);
    }

    /**
     * The accepted part of a recording start: an empty chunk list for every
     * selected device, recording on, and buffering started when instant
     * replay is on.
     */
    method BeginSession(workerAlive: bool)
      requires Valid() && selectedInputs != {}
      modifies this`audioData, this`isRecording,
        this`isBuffering, this`bufferData, this`bufferQueue, this`replayCapacity
      ensures Valid()
      ensures isRecording && audioData == EmptyLists(selectedInputs)
      ensures !instantReplay || old(isBuffering) ==>
        unchanged(this`isBuffering, this`bufferData, this`bufferQueue, this`replayCapacity)
      ensures instantReplay && !old(isBuffering) ==> BuffersReset(workerAlive)
    {
      audioData := EmptyLists(selectedInputs);
      isRecording := true;
      if instantReplay {
        var _ := StartBuffering(workerAlive);
      }
    }

    /** Recording off; buffering is stopped with it. */
    method StopRecording()
      requires Valid()
      modifies this`isRecording, this`isBuffering, this`bufferQueue, this`bufferData
      ensures Valid()
      ensures !isRecording && !isBuffering
      ensures !old(isBuffering) ==> bufferQueue == old(bufferQueue) && bufferData == old(bufferData)
      ensures old(isBuffering) ==> bufferQueue == map[] && bufferData == map[]
    {
      isRecording := false;
      StopBuffering();
    }

    /** The record command: stops a running recording, otherwise starts one. */
    method ToggleRecording(selection: seq<ListedDevice>, catalog: Catalog, useTimer: bool,
                           timerEntry: Option<int>, workerAlive: bool)
      returns (started: Option<StartOutcome>)
      requires Valid()
      modifies this`selectedInputs, this`countdownSeconds, this`audioData, this`isRecording,
        this`isBuffering, this`bufferData, this`bufferQueue, this`replayCapacity
      ensures Valid()
      // stopping: as StopRecording
      ensures old(isRecording) ==>
        started == None && !isRecording && !isBuffering &&
        unchanged(this`selectedInputs, this`countdownSeconds, this`audioData, this`replayCapacity)
      ensures old(isRecording) && old(isBuffering) ==> bufferQueue == map[] && bufferData == map[]
      ensures old(isRecording) && !old(isBuffering) ==> unchanged(this`bufferQueue, this`bufferData)
      // starting: as StartRecording
      ensures !old(isRecording) ==> started.Some?
      ensures !old(isRecording) && selection == [] ==>
        started == Some(NoSelection) && selectedInputs == old(selectedInputs)
      ensures !old(isRecording) && selection != [] ==> selectedInputs == UsableIndices(selection, catalog)
      ensures !old(isRecording) && (selection == [] || selectedInputs == {}) ==>
        countdownSeconds == old(countdownSeconds)
      ensures !old(isRecording) && selection != [] && selectedInputs == {} ==>
        started == Some(NoUsableDevice(RejectedNames(selection, catalog)))
      ensures !old(isRecording) && selection != [] && selectedInputs != {} ==>
        countdownSeconds == CountdownAfter(useTimer, timerEntry, old(countdownSeconds))
      ensures !old(isRecording) && selection != [] && selectedInputs != {} && !TimerAccepted(useTimer, timerEntry) ==>
        started == Some(BadTimer)
      ensures !old(isRecording) ==>
        (isRecording <==> selection != [] && selectedInputs != {} && TimerAccepted(useTimer, timerEntry))
      ensures !old(isRecording) && !isRecording ==>
        unchanged(this`audioData, this`isBuffering, this`bufferData, this`bufferQueue, this`replayCapacity)
      ensures !old(isRecording) && isRecording ==>
        started == Some(RecordingStarted(RejectedNames(selection, catalog))) && audioData == EmptyLists(selectedInputs)
      ensures !old(isRecording) && isRecording && (!instantReplay || old(isBuffering)) ==>
        unchanged(this`isBuffering, this`bufferData, this`bufferQueue, this`replayCapacity)
      ensures !old(isRecording) && isRecording && instantReplay && !old(isBuffering) ==> BuffersReset(workerAlive)
    {
      if isRecording {
        StopRecording();
        started := None;
      } else {
        var outcome := StartRecording(selection, catalog, useTimer, timerEntry, workerAlive);
        started := Some(outcome);
      }
    }

    /**
     * One step of the countdown: while recording with time left, one second
     * elapses; at zero with recording still on, recording is stopped; with
     * recording already off the timer just ends.
     */
    method CountdownTick() returns (t: TickOutcome)
      requires Valid()
      modifies this`countdownSeconds, this`isRecording, this`isBuffering, this`bufferQueue, this`bufferData
      ensures Valid()
      ensures old(countdownSeconds) > 0 && old(isRecording) ==>
        t == Counting && countdownSeconds == old(countdownSeconds) - 1 && isRecording &&
        unchanged(this`isBuffering, this`bufferQueue, this`bufferData)
      ensures old(countdownSeconds) <= 0 && old(isRecording) ==>
        t == TimerStopped && countdownSeconds == old(countdownSeconds) && !isRecording && !isBuffering
      ensures t == TimerStopped && old(isBuffering) ==> bufferQueue == map[] && bufferData == map[]
      ensures t == TimerStopped && !old(isBuffering) ==> unchanged(this`bufferQueue, this`bufferData)
      ensures !old(isRecording) ==>
        t == TimerIdle && unchanged(this`countdownSeconds, this`isRecording, this`isBuffering, this`bufferQueue, this`bufferData)
    {
      if countdownSeconds > 0 && isRecording {
        countdownSeconds := countdownSeconds - 1;
        return Counting;
      }
      if countdownSeconds <= 0 && isRecording {
        StopRecording();
        return TimerStopped;
      }
      t := TimerIdle;
    }

    /**
     * The timer worker: counts down while recording, then stops the recording
     * if it is still on. Run without interruption, a recording with `n > 0`
     * seconds on the timer ends with the countdown at zero and recording off.
     */
    method RunCountdown()
      requires Valid()
      modifies this`countdownSeconds, this`isRecording, this`isBuffering, this`bufferQueue, this`bufferData
      ensures Valid()
      ensures old(isRecording) ==>
        !isRecording && !isBuffering &&
        countdownSeconds == (if old(countdownSeconds) > 0 then 0 else old(countdownSeconds))
      ensures old(isRecording) && old(isBuffering) ==> bufferQueue == map[] && bufferData == map[]
      ensures old(isRecording) && !old(isBuffering) ==> unchanged(this`bufferQueue, this`bufferData)
      ensures !old(isRecording) ==>
        unchanged(this`countdownSeconds, this`isRecording, this`isBuffering, this`bufferQueue, this`bufferData)
    {
      var t := CountdownTick();
      while t == Counting
        invariant Valid()
        invariant t == Counting ==> isRecording && old(isRecording) && 0 <= countdownSeconds < old(countdownSeconds)
        invariant t != TimerStopped ==> isBuffering == old(isBuffering) && unchanged(this`bufferQueue, this`bufferData)
        invariant t == TimerStopped && old(isBuffering) ==> bufferQueue == map[] && bufferData == map[]
        invariant t == TimerStopped && !old(isBuffering) ==> unchanged(this`bufferQueue, this`bufferData)
        invariant t == TimerStopped ==>
          old(isRecording) && !isRecording && !isBuffering &&
          countdownSeconds == (if old(countdownSeconds) > 0 then 0 else old(countdownSeconds))
        invariant t == TimerIdle ==>
          !old(isRecording) &&
          unchanged(this`countdownSeconds, this`isRecording, this`isBuffering, this`bufferQueue, this`bufferData)
        decreases countdownSeconds, t == Counting
      {
        t := CountdownTick();
      }
    }

    /**
     * Saving the replay buffer. Refused (nothing saved) when not buffering or
     * when there are no queues; otherwise every non-empty queue is exported
     * on its own and empty queues are skipped. The state is not changed.
     */
    method SaveBufferManually(catalog: Catalog, timestamp: string)
      returns (results: Option<map<DeviceId, ExportOutcome>>)
      ensures results == None <==> !isBuffering || bufferQueue == map[]
      ensures results.Some? ==> results.value.Keys == NonEmptyQueues(bufferQueue)
      ensures results.Some? ==> forall d :: d in results.value ==>
        results.value[d] == BufferExport(d, bufferQueue[d], catalog, outputDir, timestamp)
    {
      if !isBuffering || bufferQueue == map[] {
        return None;
      }
      var saved := ExportBuffers(bufferQueue, catalog, outputDir, timestamp);
      results := Some(saved);
    }

    /**
     * Saving a finished session: every device with at least one chunk is
     * exported on its own, then the session lists are dropped.
     */
    method SaveAudioFiles(catalog: Catalog, timestamp: string)
      returns (results: map<DeviceId, ExportOutcome>)
      modifies this`audioData
      ensures results.Keys == NonEmptySessions(old(audioData))
      ensures forall d :: d in results ==>
        results[d] == SessionExport(d, old(audioData)[d], catalog, outputDir, timestamp)
      ensures audioData == map[]
    {
      results := ExportSession(audioData, catalog, outputDir, timestamp);
      audioData := map[];
    }

    /** Opening a hotkey dialog: refused while recording, else an empty capture. */
    method BeginHotkeyCapture() returns (capture: KeyCapture?)
      ensures capture == null <==> isRecording
      ensures capture != null ==> fresh(capture) && capture.Valid() && capture.combination == []
    {
      if isRecording {
        return null;
      }
      capture := new KeyCapture();
    }

    /**
     * A key event in the replay-hotkey dialog: a confirmed combination that
     * differs from the record hotkey becomes the replay hotkey.
     */
    method ReplayHotkeyKey(capture: KeyCapture, keysym: string) returns (r: KeyOutcome)
      requires Valid() && capture.Valid()
      modifies this`hotkey, capture
      ensures Valid() && capture.Valid()
      ensures !IsForbidden(keysym) && keysym == "Return" ==>
        (r.Accepted? <==>
          old(capture.combination) != [] && !SameHotkey(JoinKeys(old(capture.combination)), recordHotkey))
      ensures (!IsForbidden(keysym) && keysym == "Return" && old(capture.combination) != [] &&
               SameHotkey(JoinKeys(old(capture.combination)), recordHotkey)) ==>
        r == Clash
      ensures r.Accepted? ==> hotkey == r.hotkey == JoinKeys(old(capture.combination))
      ensures !r.Accepted? ==> hotkey == old(hotkey)
      ensures IsForbidden(keysym) ==> r == Forbidden
      ensures IsForbidden(keysym) || keysym == "Return" ==> capture.combination == old(capture.combination)
      ensures !IsForbidden(keysym) && keysym == "Return" && old(capture.combination) == [] ==> r == NothingToConfirm
      ensures !IsForbidden(keysym) && keysym != "Return" ==>
        var key := NormalizeKey(Lower(keysym));
        capture.combination == Press(old(capture.combination), key) &&
        r == (if key in old(capture.combination) then Repeated else Added(key))
    {
      r := capture.OnKey(keysym, recordHotkey);
      if r.Accepted? {
        hotkey := r.hotkey;
      }
    }

    /**
     * A key event in the record-hotkey dialog: a confirmed combination that
     * differs from the replay hotkey becomes the record hotkey.
     */
    method RecordHotkeyKey(capture: KeyCapture, keysym: string) returns (r: KeyOutcome)
      requires Valid() && capture.Valid()
      modifies this`recordHotkey, capture
      ensures Valid() && capture.Valid()
      ensures !IsForbidden(keysym) && keysym == "Return" ==>
        (r.Accepted? <==>
          old(capture.combination) != [] && !SameHotkey(JoinKeys(old(capture.combination)), hotkey))
      ensures (!IsForbidden(keysym) && keysym == "Return" && old(capture.combination) != [] &&
               SameHotkey(JoinKeys(old(capture.combination)), hotkey)) ==>
        r == Clash
      ensures r.Accepted? ==> recordHotkey == r.hotkey == JoinKeys(old(capture.combination))
      ensures !r.Accepted? ==> recordHotkey == old(recordHotkey)
      ensures IsForbidden(keysym) ==> r == Forbidden
      ensures IsForbidden(keysym) || keysym == "Return" ==> capture.combination == old(capture.combination)
      ensures !IsForbidden(keysym) && keysym == "Return" && old(capture.combination) == [] ==> r == NothingToConfirm
      ensures !IsForbidden(keysym) && keysym != "Return" ==>
        var key := NormalizeKey(Lower(keysym));
        capture.combination == Press(old(capture.combination), key) &&
        r == (if key in old(capture.combination) then Repeated else Added(key))
    {
      r := capture.OnKey(keysym, hotkey);
      if r.Accepted? {
        recordHotkey := r.hotkey;
      }
    }
  }
}
