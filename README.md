# MultiTrackAudioRecorder — a verified model of the recorder core

MultiTrackAudioRecorder is a desktop recorder that records several audio input
devices at once, each to its own WAV file. It can also keep an "instant replay"
buffer: the last few minutes of every selected device, saved on demand with a
global hotkey. This project models the sequential core of the application
object `AudioRecorderApp` in `main.py`:

- **State.** The `Recorder.AudioRecorder` class holds:
  - the recording and buffering flags;
  - the selected devices;
  - the per-device chunk lists of a session and the per-device replay queues;
  - the buffer-duration slider and the last accepted duration;
  - the countdown and the instant-replay checkbox;
  - the two hotkeys and the output directory.

  Each user command, stream callback and timer step is a method that updates
  these fields. Every method that changes the flags, the buffers, the
  duration or a hotkey requires and keeps the invariant `Valid()`:
  - the slider shows the accepted duration (1 to 20 minutes);
  - no replay queue is longer than its maximum length;
  - queues of an active buffering have the capacity of the accepted duration;
  - the two hotkeys are never equal ignoring case. This is the dialog's own
    check: a reordered combination such as `shift+ctrl+r` next to
    `ctrl+shift+r` is accepted.

  `AudioCallback`, the two saves and the opening of a hotkey dialog only
  touch the session lists or nothing covered by `Valid()`, so they do not
  mention it. `BufferCallback` changes the replay queues, so it requires and
  keeps `Valid()`.
- **Replay queue** (`Replay`). A deque with a maximum length is a sequence
  that keeps its last `capacity` elements (`Window`). `ExtendBounded`
  appends rows one at a time and evicts the oldest row when the queue is full.
  It is proved to equal the window of everything received.
- **Devices** (`Devices`). The host's device enumeration is a sequence of
  `DeviceInfo` records: name, maximum input channels, and whether a one-channel
  probe stream opens. Querying an index outside it fails. On top of it the
  module models:
  - the channel count `min(2, max_input_channels)`;
  - the device-list filter;
  - the input selection of the instant-replay check;
  - the probe loop of a recording start.
- **Export** (`Export`). It builds the `{recording|buffer}_{safe}_{timestamp}.wav`
  file name and says what is written for one device: the concatenated chunks,
  or the queue reshaped to the channel count. It also has the per-device loops
  of a session save and a buffer save. A failing device is reported alone.
  Devices with nothing captured are skipped.
- **Hotkeys** (`Hotkeys`). The key-capture dialog (`KeyCapture.OnKey`):
  - forbidden keys are refused;
  - left/right modifier names are normalised;
  - a key is added only once, in first-press order;
  - Return confirms the `+`-joined combination unless it equals the other
    hotkey, ignoring case.
- **Text** (`Text`). It models `lower()`, substring search and the safe-name
  transform, which keeps alphanumerics and turns every other character into `_`.

Some behaviour is modelled as the code has it:
- **Live previous worker.** When buffering starts while the previous buffering
  worker is still alive, `start_buffering` calls `stop_buffering` after setting
  the flag. Buffering therefore ends up off, while the new worker still creates
  the queues. The `workerAlive` parameter selects this branch, and
  `BuffersReset(workerAlive)` states the result (`isBuffering == !workerAlive`).
- **Timer entry.** A timer value that parses is stored in the countdown even
  when it is then refused for being non-positive.
- **No probe in the instant-replay check.** The input-device check of instant
  replay does not query or probe devices. It only takes the selected rows whose
  type column is "Input".
- **Stopping a recording stops buffering.** `stop_recording` always calls
  `stop_buffering`, also when buffering was started from the instant-replay
  checkbox before the recording. The checkbox stays ticked while buffering is
  off (`StopRecording`, `CountdownTick`).
- **Equal safe names share a file.** Two devices whose names give the same
  safe name (equal names, or names that differ only in non-alphanumeric
  characters) are written to the same path in one save, so the later write
  replaces the earlier file (`SameSafeNameSameFile`).
- **No all-or-nothing start, no generation tokens.** A recording starts with
  whatever devices passed the probe and reports the others. There are no
  generation tokens.

## Model

| member | source | states |
|---|---|---|
| Text.ContainsAt | main.py:584-587 | the recursive substring search holds exactly when the part occurs at some offset (Python's `in` on strings) |
| Text.SafeName | main.py:524 | the safe name has the device name's length; alphanumeric characters are kept in place and every other character becomes `_` |
| Text.SafeNameIsFixpoint | main.py:359 | a safe name contains only alphanumerics and `_`; the transform is idempotent and leaves exactly the already-safe names unchanged |
| Text.SafeNameMerges | main.py:524 | two device names that differ only in non-alphanumeric positions get the same safe name |
| Audio.Concat | main.py:528 | `np.concatenate` of a chunk list has as many rows as all chunks together |
| Audio.ConcatAppend | main.py:511 | appending a chunk appends its rows at the end of the concatenation (append order is kept) |
| Audio.Reshape | main.py:364 | `reshape(-1, channels)` yields rows that all have the channel count as width |
| Audio.ReshapeFlatten | main.py:364 | rows of a common positive width, flattened, reshape back to exactly the same rows |
| Audio.FlattenReshape | main.py:364 | reshaping a sample stream and flattening the rows gives back the stream |
| Devices.ChannelCount | main.py:319 | the stream channel count is at most 2 and at most the device's maximum, and equals one of the two |
| Devices.ListedFilter | main.py:575-588 | `Listed` and `LineInName`: a device is listed exactly when it has input channels and, outside "show all" mode, its lower-cased name contains "line" and "virtual" and does not contain "output" |
| Devices.ListDevices | main.py:570-590 | the list holds exactly the devices with input channels that pass the "Line In" filter (all of them in "show all" mode), each once, in enumeration order, with type "Input" or "Output" from the channel count |
| Devices.InputIndices | main.py:233-238 | the picked devices are exactly the indices of selected rows of type "Input" |
| Devices.ProbeSelection | main.py:383-405 | the usable devices are exactly the selected ones whose query succeeds with input channels and whose probe opens; the others are reported by name in selection order; with no usable device, every selected row is reported |
| Replay.ReplayCapacity | main.py:305-307 | a queue for `minutes` minutes holds at most 44100 × 60 = 2 646 000 rows per minute |
| Replay.Window | main.py:309 | a deque with maximum length `capacity` holds the last `min(len, capacity)` elements of what was pushed |
| Replay.WindowCompose | main.py:311-313 | extending a queue that holds the window of `a` by `b` leaves the window of `a + b` |
| Replay.WindowPush | main.py:313 | one append to a bounded deque drops the oldest element first exactly when the queue is full |
| Replay.ExtendBounded | main.py:313 | `deque.extend` on a queue within its capacity leaves the most recent `capacity` rows of old contents plus new rows, never more than the capacity |
| Replay.ExtendAllKeepsLatest | main.py:305-313 | after any sequence of extends the queue holds exactly the most recent `capacity` rows received, in arrival order, and never exceeds the capacity |
| Export.FileName | main.py:525 | the file name is the prefix, `_`, the safe name, `_`, the timestamp and `.wav`, and splits back into them |
| Export.FileNameInjective | main.py:360 | within one save, two file names coincide exactly when the kind of save and the safe names agree |
| Export.SessionExport | main.py:522-529 | a device the query does not know fails with that error alone; otherwise the file is saved in the output directory at 44100 Hz with as many rows as all its chunks together, named `recording_<safe name>_<timestamp>.wav` |
| Export.BufferExport | main.py:357-365 | an unknown device fails; a known device is saved exactly when its queue reshapes to the channel count and fails with a shape error otherwise; a saved file is named `buffer_<safe name>_<timestamp>.wav` and has rows of the channel count whose samples are the queue's samples in order |
| Export.SameSafeNameSameFile | main.py:524-526 | two devices with the same safe name are saved under the same directory and file name in one save, so one file replaces the other |
| Export.SessionExportContents | main.py:518-530 | a session file holds the device's chunks concatenated in append order at 44100 Hz, named `recording_<safe name>_<timestamp>.wav`; an unknown device fails alone |
| Export.BufferExportKeepsRows | main.py:357-366 | a queue of rows of the device's channel count is written back exactly, oldest row first, under the buffer file name |
| Export.ExportSession | main.py:518-536 | a session save reports exactly the devices with a non-empty chunk list, each with the outcome computed from that device's own chunks |
| Export.ExportBuffers | main.py:352-371 | a buffer save reports exactly the devices with a non-empty queue, each with the outcome computed from that device's own queue |
| Hotkeys.NormalizeKey | main.py:152-158 | left/right shift, alt and control names become `shift`, `alt`, `ctrl`; every other key is unchanged; no side-specific name remains |
| Hotkeys.JoinKeys | main.py:139 | the joined hotkey starts with the first key, and a single key is the hotkey itself |
| Hotkeys.SplitJoinKeys | main.py:139 | key names without `+` joined with `+` split back into exactly those names, in order |
| Hotkeys.Press | main.py:160-164 | pressing a key keeps the earlier keys in order, adds the key only when absent, and keeps the combination duplicate-free |
| Hotkeys.PressAllDistinct | main.py:160-164 | after any sequence of presses the combination holds each pressed key exactly once and is no longer than the presses |
| Hotkeys.KeyCapture.constructor | main.py:126 | a dialog starts with an empty combination |
| Hotkeys.KeyCapture.OnKey | main.py:132-164 | forbidden keys are refused and change nothing; Return changes nothing and yields nothing, a clash, or the joined combination, which never equals the other hotkey ignoring case; other keys are lower-cased, normalised and pressed |
| Recorder.EmptyLists | main.py:428 | `{idx: [] for idx in ids}` has exactly the given devices as keys, each with an empty list (also the queues of main.py:309) |
| Recorder.CountdownAfter | main.py:417-424 | the timer step: 0 with the timer off, the parsed entry whenever it parses (even a refused non-positive value), the old value when it does not parse; with an accepted timer (`TimerAccepted`) the countdown is positive exactly when the timer is on |
| Recorder.LengthsDiffer | main.py:35-36 | hotkeys of different lengths never clash, so the default pair is clash-free |
| Recorder.AudioRecorder.constructor | main.py:20-41 | initial state: nothing recording or buffering, no devices or data, a 2-minute buffer, countdown 0, the default hotkeys and output directory |
| Recorder.AudioRecorder.OnBufferDurationChange | main.py:55-63 | while buffering the slider is reset and the accepted duration stays; otherwise the new duration is accepted |
| Recorder.AudioRecorder.CreateReplayQueues | main.py:303-309 | one empty queue per selected device, with maximum length 44100 × 60 × the slider's minutes |
| Recorder.AudioRecorder.StopBuffering | main.py:287-301 | a no-op when not buffering; otherwise the flag and both buffer maps are cleared |
| Recorder.AudioRecorder.StartBuffering | main.py:265-285 | a no-op when already buffering; refused without change with no selected device; otherwise the maps are reset and the new queues created, with buffering left on unless a live previous worker made it stop |
| Recorder.AudioRecorder.BufferCallback | main.py:311-313 | only while buffering and for a device with a queue: that queue becomes the window of its old rows plus the new ones; no other device's queue changes |
| Recorder.AudioRecorder.AudioCallback | main.py:508-511 | only while recording: the chunk is appended to that device's list; a device without a list fails; no other device's list changes |
| Recorder.AudioRecorder.ValidateInputDevices | main.py:227-244 | an empty selection is refused without change; otherwise the selected devices become the "Input" rows, and the check succeeds when there is one |
| Recorder.AudioRecorder.ToggleInstantReplay | main.py:246-263 | ticking validates the selection (unticking on failure) and starts buffering; unticking stops buffering |
| Recorder.AudioRecorder.StartRecording | main.py:376-443 | refused with no selection, with no usable device, or with an unaccepted timer, and then recording and buffers are unchanged; on success the selected devices are exactly the usable ones, each has an empty chunk list, recording is on, the unusable devices are reported, and buffering starts when instant replay is on |
| Recorder.AudioRecorder.BeginSession | main.py:428-435 | every selected device gets an empty chunk list, recording is on, and buffering starts when instant replay is on |
| Recorder.AudioRecorder.StopRecording | main.py:462-468 | recording is off and buffering is stopped |
| Recorder.AudioRecorder.ToggleRecording | main.py:48-53 | stops a running recording with the same new state as `StopRecording` (buffer maps cleared when buffering was on); otherwise attempts a start with `StartRecording`'s outcome: no selection, no usable device or a bad timer leave recording off with the reason reported, and a start opens one empty chunk list per usable selected device and reports the rejected names |
| Recorder.AudioRecorder.CountdownTick | main.py:543-550 | while recording with time left one second elapses; at zero a running recording is stopped, buffering is turned off and, if it was on, both buffer maps are emptied; with recording off nothing changes |
| Recorder.AudioRecorder.RunCountdown | main.py:543-550 | run without interruption, a recording ends with the countdown at zero (or at its non-positive start), recording and buffering off and the buffer maps emptied if buffering was on (left as they were otherwise); with recording off nothing changes |
| Recorder.AudioRecorder.SaveBufferManually | main.py:345-374 | refused exactly when not buffering or without queues; otherwise every non-empty queue gets its own export and empty ones are skipped |
| Recorder.AudioRecorder.SaveAudioFiles | main.py:513-541 | every device with a chunk gets its own export of its chunks, then the session lists are dropped |
| Recorder.AudioRecorder.BeginHotkeyCapture | main.py:113-116 | no dialog opens while recording; otherwise a dialog with an empty combination |
| Recorder.AudioRecorder.ReplayHotkeyKey | main.py:132-150 | a forbidden key is refused and Return leaves the combination as it was; any other key is lower-cased, normalised and added to the combination unless already in it (reported as repeated); a confirmed combination becomes the replay hotkey exactly when it is non-empty and differs from the record hotkey ignoring case; one equal to it ignoring case is reported as a clash, and an empty one as nothing to confirm; otherwise the hotkey is unchanged |
| Recorder.AudioRecorder.RecordHotkeyKey | main.py:189-207 | a forbidden key is refused and Return leaves the combination as it was; any other key is lower-cased, normalised and added to the combination unless already in it (reported as repeated); a confirmed combination becomes the record hotkey exactly when it is non-empty and differs from the replay hotkey ignoring case; one equal to it ignoring case is reported as a clash, and an empty one as nothing to confirm; otherwise the hotkey is unchanged |

## Left out

- The Tkinter user interface is not modelled: widgets, message boxes, the
  directory dialog (`browse_directory`), Treeview sorting and the timer and
  status labels. Warnings and errors show up as result values.
- Audio I/O is not modelled. Opening, starting and closing streams, the
  device query, and the recording worker `record_audio` that wires streams to
  `audio_callback` are foreign calls. The device enumeration is a parameter,
  and stream deliveries are the callback methods.
- Stream failures inside the buffering worker are not modelled. The error
  dialog is never shown, and the queues stay as created.
- `sf.write` failures are not modelled: a file that is built is written. The
  per-device failures modelled are an unknown device and a queue that does not
  reshape to the channel count.
- Threads, `time.sleep` polling and `root.after` hand-offs are
  sequentialised. A buffering start runs the flag logic and then the queue
  creation in one call. Whether the previous worker is still alive is the
  parameter `workerAlive`. Interleavings of callbacks with commands are
  modelled only as separate method calls.
- Registering and removing the global keyboard hooks are foreign calls and
  are not modelled. Closing the dialog after a confirmed hotkey and the on-screen
  key display are left out too.
- Sample values are opaque (`real`). There is no floating-point or numpy
  dtype reasoning. A chunk is a sequence of rows, and ragged arrays are not
  modelled.
- The timestamp and the timer entry text are parameters. The entry is
  `Option<int>`, where `None` means `int()` raised. Parsing itself is not
  modelled.
- `str.lower` and `str.isalnum` are modelled on ASCII only. Python applies
  them to all of Unicode, so a non-ASCII letter is kept by the real safe-name
  transform but becomes `_` here.
- ExportSession and ExportBuffers: each outcome is computed as if its file
  were written on its own. When two devices share a safe name they share a
  path (`SameSafeNameSameFile`), so on disk only the device written last
  survives. Which one that is depends on the dictionary order, which is not
  modelled.
- The order in which dictionaries are iterated during a save is not modelled.
  Results are a map from device to outcome, so the order of the saved-files
  message is left out.
- `save_audio_files` takes its sample rate as an argument. The only caller,
  the recording worker, passes 44100, so the model fixes it at 44100.
- ProbeSelection: rejected devices are reported by name only. The exception
  text that the code appends to a device whose query or probe raised is left
  out.
- Creating the output directory at start-up is left out, because it is file
  system I/O.
