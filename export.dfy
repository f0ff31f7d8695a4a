/**
 * Export of captured audio: the file name of each device's file, what is
 * written for one device, and the per-device loops of a session save and a
 * replay-buffer save. A failure for one device is reported for that device
 * and does not stop the others; devices with nothing captured are skipped.
 */
module Export {
  import opened Text
  import opened Audio
  import opened Devices

  /** Which save produced a file: a recording session or the replay buffer. */
  datatype ExportKind = Recording | Buffer

  function Prefix(kind: ExportKind): string
  {
    match kind
    case Recording => "recording"
    case Buffer => "buffer"
  }

  /**
   * `{prefix}_{safe}_{timestamp}.wav`: the name splits back into the prefix
   * and `_`, the safe name, and `_`, the timestamp and `.wav`.
   */
  function FileName(kind: ExportKind, safe: string, timestamp: string): (name: string)
    ensures var p := |Prefix(kind)| + 1;
      && |name| == p + |safe| + 1 + |timestamp| + 4
      && name[..p] == Prefix(kind) + "_"
      && name[p..p + |safe|] == safe
      && name[p + |safe|..] == "_" + timestamp + ".wav"
  {
    var name := Prefix(kind) + "_" + safe + "_" + timestamp + ".wav";
    assert name == (Prefix(kind) + "_") + safe + ("_" + timestamp + ".wav");
    name
  }

  /**
   * Within one save (one timestamp) two files get the same name exactly when
   * they come from the same kind of save and their devices' safe names agree;
   * two devices whose names differ only in non-alphanumeric characters
   * therefore write to the same file.
   */
  lemma FileNameInjective(k1: ExportKind, s1: string, k2: ExportKind, s2: string, timestamp: string)
    ensures FileName(k1, s1, timestamp) == FileName(k2, s2, timestamp) <==> k1 == k2 && s1 == s2
  {
    var n1, n2 := FileName(k1, s1, timestamp), FileName(k2, s2, timestamp);
    // "recording_" and "buffer_" already differ in their first character
    assert n1[0] == Prefix(k1)[0] && n2[0] == Prefix(k2)[0];
    if n1 == n2 && k1 == k2 {
      var p := |Prefix(k1)| + 1;
      assert |s1| == |s2|;
      assert s1 == n1[p..p + |s1|] == n2[p..p + |s2|] == s2;
    }
  }

  /** An audio file as written: directory, file name, frames and sample rate. */
  datatype WrittenFile = WrittenFile(dir: string, name: string, rows: seq<Row>, sampleRate: nat)

  /** Why one device's file was not written. */
  datatype ExportError =
    | UnknownDevice   // the device query raised
    | ShapeMismatch   // the queued samples do not reshape to the channel count

  datatype ExportOutcome = Saved(file: WrittenFile) | Failed(error: ExportError)

  /** What a session save does for one device with a non-empty chunk list. */
  function SessionExport(d: DeviceId, chunks: seq<Chunk>, catalog: Catalog, dir: string, timestamp: string): (out: ExportOutcome)
    ensures out.Failed? <==> !Known(catalog, d)
    ensures out.Failed? ==> out.error == UnknownDevice
    ensures out.Saved? ==> |out.file.rows| == TotalRows(chunks) && out.file.dir == dir && out.file.sampleRate == SampleRate
    ensures out.Saved? ==> out.file.name == FileName(Recording, SafeName(catalog[d].name), timestamp)
  {
    if !Known(catalog, d) then Failed(UnknownDevice)
    else
      var name := FileName(Recording, SafeName(catalog[d].name), timestamp);
      Saved(WrittenFile(dir, name, Concat(chunks), SampleRate))
  }

  /**
   * A session file holds every delivered chunk's rows in append order, at the
   * fixed sample rate, under the device's recording file name; a device the
   * query does not know fails alone.
   */
  lemma SessionExportContents(d: DeviceId, chunks: seq<Chunk>, c: Chunk, catalog: Catalog, dir: string, timestamp: string)
    ensures !Known(catalog, d) ==> SessionExport(d, chunks, catalog, dir, timestamp) == Failed(UnknownDevice)
    ensures Known(catalog, d) ==>
      var out := SessionExport(d, chunks + [c], catalog, dir, timestamp);
      && out.Saved?
      && out.file.rows == SessionExport(d, chunks, catalog, dir, timestamp).file.rows + c
      && |out.file.rows| == TotalRows(chunks + [c])
      && out.file.sampleRate == SampleRate
      && out.file.name == FileName(Recording, SafeName(catalog[d].name), timestamp)
  {
    if Known(catalog, d) {
      ConcatAppend(chunks, c);
    }
  }

  /** What a replay-buffer save does for one device with a non-empty queue. */
  function BufferExport(d: DeviceId, queue: seq<Row>, catalog: Catalog, dir: string, timestamp: string): (out: ExportOutcome)
    ensures !Known(catalog, d) ==> out == Failed(UnknownDevice)
    ensures Known(catalog, d) ==>
      var width := ChannelCount(catalog[d].maxInputChannels);
      && (out == Failed(ShapeMismatch) <==> width <= 0 || !FitsRows(|Flatten(queue)|, width))
      && (out.Saved? <==> width > 0 && FitsRows(|Flatten(queue)|, width))
    ensures out.Saved? ==>
      && AllWidth(out.file.rows, ChannelCount(catalog[d].maxInputChannels))
      && Flatten(out.file.rows) == Flatten(queue)
      && out.file.dir == dir && out.file.sampleRate == SampleRate
      && out.file.name == FileName(Buffer, SafeName(catalog[d].name), timestamp)
  {
    if !Known(catalog, d) then Failed(UnknownDevice)
    else
      var width := ChannelCount(catalog[d].maxInputChannels);
      var flat := Flatten(queue);
      if width <= 0 || !FitsRows(|flat|, width) then Failed(ShapeMismatch)
      else
        var name := FileName(Buffer, SafeName(catalog[d].name), timestamp);
        FlattenReshape(flat, width);
        Saved(WrittenFile(dir, name, Reshape(flat, width), SampleRate))
  }

  /**
   * A queue filled by the device's own stream (rows of the stream's channel
   * count) is written back exactly: the reshape to the channel count returns
   * the queued rows, oldest first.
   */
  lemma BufferExportKeepsRows(d: DeviceId, queue: seq<Row>, catalog: Catalog, dir: string, timestamp: string)
    requires Known(catalog, d) && catalog[d].maxInputChannels > 0
    requires AllWidth(queue, ChannelCount(catalog[d].maxInputChannels))
    ensures BufferExport(d, queue, catalog, dir, timestamp) ==
      Saved(WrittenFile(dir, FileName(Buffer, SafeName(catalog[d].name), timestamp), queue, SampleRate))
  {
    ReshapeFlatten(queue, ChannelCount(catalog[d].maxInputChannels));
  }

  /**
   * Two devices whose names have the same safe name are written to the same
   * path within one save: the file saved later replaces the earlier one.
   */
  lemma SameSafeNameSameFile(d1: DeviceId, d2: DeviceId, chunks1: seq<Chunk>, chunks2: seq<Chunk>,
                             catalog: Catalog, dir: string, timestamp: string)
    requires Known(catalog, d1) && Known(catalog, d2)
    requires SafeName(catalog[d1].name) == SafeName(catalog[d2].name)
    ensures var o1, o2 := SessionExport(d1, chunks1, catalog, dir, timestamp), SessionExport(d2, chunks2, catalog, dir, timestamp);
      o1.Saved? && o2.Saved? && o1.file.dir == o2.file.dir && o1.file.name == o2.file.name
  {
  }

  /** A non-empty set of devices has a member to visit next. */
  lemma HasMember(s: set<DeviceId>)
    requires s != {}
    ensures exists d :: d in s
  {
    if forall d :: d !in s {
      assert false;
    }
  }

  /** The devices a save writes or reports: those with something captured. */
  function NonEmptySessions(audioData: map<DeviceId, seq<Chunk>>): set<DeviceId>
  {
    set d | d in audioData && audioData[d] != []
  }

  /**
   * The loop of a session save: every device with at least one chunk gets its
   * own outcome, computed independently of the other devices; devices with an
   * empty list get none.
   */
  method ExportSession(audioData: map<DeviceId, seq<Chunk>>, catalog: Catalog, dir: string, timestamp: string)
    returns (results: map<DeviceId, ExportOutcome>)
    ensures results.Keys == NonEmptySessions(audioData)
    ensures forall d :: d in results ==> results[d] == SessionExport(d, audioData[d], catalog, dir, timestamp)
  {
    results := map[];
    var pending := audioData.Keys;
    while pending != {}
      invariant pending <= audioData.Keys
      invariant results.Keys == NonEmptySessions(audioData) - pending
      invariant forall d :: d in results ==> results[d] == SessionExport(d, audioData[d], catalog, dir, timestamp)
      decreases |pending|
    {
      HasMember(pending);
      var d :| d in pending;
      if audioData[d] != [] {
        results := results[d := SessionExport(d, audioData[d], catalog, dir, timestamp)];
      }
      pending := pending - {d};
    }
  }

  /** The devices a replay save writes or reports: those with a non-empty queue. */
  function NonEmptyQueues(queues: map<DeviceId, seq<Row>>): set<DeviceId>
  {
    set d | d in queues && queues[d] != []
  }

  /**
   * The loop of a replay-buffer save: every device with a non-empty queue gets
   * its own outcome; empty queues are skipped.
   */
  method ExportBuffers(queues: map<DeviceId, seq<Row>>, catalog: Catalog, dir: string, timestamp: string)
    returns (results: map<DeviceId, ExportOutcome>)
    ensures results.Keys == NonEmptyQueues(queues)
    ensures forall d :: d in results ==> results[d] == BufferExport(d, queues[d], catalog, dir, timestamp)
  {
    results := map[];
    var pending := queues.Keys;
    while pending != {}
      invariant pending <= queues.Keys
      invariant results.Keys == NonEmptyQueues(queues) - pending
      invariant forall d :: d in results ==> results[d] == BufferExport(d, queues[d], catalog, dir, timestamp)
      decreases |pending|
    {
      HasMember(pending);
      var d :| d in pending;
      if queues[d] != [] {
        results := results[d := BufferExport(d, queues[d], catalog, dir, timestamp)];
      }
      pending := pending - {d};
    }
  }
}
