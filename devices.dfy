/**
 * The device layer as the recorder consumes it, and the pure rules built on
 * it: the channel count, the device-list filter, input selection and the
 * open/close probe of the selected devices before a recording starts.
 */
module Devices {
  import opened Text

  /** A device's position in the host's device enumeration. */
  type DeviceId = int

  /**
   * What a device query reports (display name, maximum input channels) and
   * whether a one-channel probe stream on it opens and closes without error.
   */
  datatype DeviceInfo = DeviceInfo(name: string, maxInputChannels: int, probeOk: bool)

  /**
   * The device enumeration: device `d` is `catalog[d]`. Querying an index outside
   * the enumeration raises in the host library.
   */
  type Catalog = seq<DeviceInfo>

  predicate Known(catalog: Catalog, d: DeviceId)
  {
    0 <= d < |catalog|
  }

  /** `min(2, max_input_channels)`: the channel count a stream is opened with. */
  function ChannelCount(maxInputChannels: int): (c: int)
    ensures c <= 2 && c <= maxInputChannels
    ensures c == 2 || c == maxInputChannels
  {
    if maxInputChannels < 2 then maxInputChannels else 2
  }

  /** The "type" column of the device list. */
  datatype DeviceKind = Input | Output

  /** One row of the device list: index, display name and type. */
  datatype ListedDevice = ListedDevice(index: DeviceId, name: string, kind: DeviceKind)

  /** The "Line In" name heuristic, applied to the lower-cased name. */
  predicate LineInName(lowered: string)
  {
    Contains(lowered, "line") && !Contains(lowered, "output") && Contains(lowered, "virtual")
  }

  /**
   * Whether the device list shows a device: never one with zero input
   * channels; outside "show all" mode only the Line In candidates.
   */
  predicate Listed(info: DeviceInfo, showAll: bool)
  {
    info.maxInputChannels != 0 && (showAll || LineInName(Lower(info.name)))
  }

  /**
   * The filter in terms of occurrences: a device is listed exactly when it has
   * input channels and, outside "show all" mode, its lower-cased name has
   * "line" and "virtual" at some offset and "output" at none.
   */
  lemma ListedFilter(info: DeviceInfo, showAll: bool)
    ensures var lowered := Lower(info.name);
      Listed(info, showAll) <==>
        && info.maxInputChannels != 0
        && (|| showAll
            || (&& (exists i :: 0 <= i <= |lowered| - 4 && "line" <= lowered[i..])
                && !(exists i :: 0 <= i <= |lowered| - 6 && "output" <= lowered[i..])
                && (exists i :: 0 <= i <= |lowered| - 7 && "virtual" <= lowered[i..])))
  {
    var lowered := Lower(info.name);
    ContainsAt(lowered, "line");
    ContainsAt(lowered, "output");
    ContainsAt(lowered, "virtual");
  }

  /** The list row for enumeration entry `i`. */
  function RowFor(catalog: Catalog, i: DeviceId): ListedDevice
    requires Known(catalog, i)
  {
    var info := catalog[i];
    ListedDevice(i, info.name, if info.maxInputChannels > 0 then Input else Output)
  }

  /** Some row of the list shows device `d`. */
  predicate Shown(rows: seq<ListedDevice>, d: DeviceId)
  {
    exists k :: 0 <= k < |rows| && rows[k].index == d
  }

  /** Appending a row keeps every shown device shown and shows the new one. */
  lemma ShownAppend(rows: seq<ListedDevice>, row: ListedDevice, d: DeviceId)
    requires Shown(rows, d) || d == row.index
    ensures Shown(rows + [row], d)
  {
    if d == row.index {
      assert (rows + [row])[|rows|] == row;
    } else {
      var k :| 0 <= k < |rows| && rows[k].index == d;
      assert (rows + [row])[k] == rows[k];
    }
  }

  /**
   * The device-list refresh: walks the enumeration in order and lists the
   * devices the filter accepts. The result holds exactly the accepted devices,
   * each once, in enumeration order.
   */
  method ListDevices(catalog: Catalog, showAll: bool) returns (rows: seq<ListedDevice>)
    ensures forall k :: 0 <= k < |rows| ==>
      Known(catalog, rows[k].index) && Listed(catalog[rows[k].index], showAll) &&
      rows[k] == RowFor(catalog, rows[k].index)
    ensures forall k, l :: 0 <= k < l < |rows| ==> rows[k].index < rows[l].index
    ensures forall i :: 0 <= i < |catalog| && Listed(catalog[i], showAll) ==> Shown(rows, i)
  {
    rows := [];
    for i := 0 to |catalog|
      invariant forall k :: 0 <= k < |rows| ==>
        0 <= rows[k].index < i && Listed(catalog[rows[k].index], showAll) &&
        rows[k] == RowFor(catalog, rows[k].index)
      invariant forall k, l :: 0 <= k < l < |rows| ==> rows[k].index < rows[l].index
      invariant forall j :: 0 <= j < i && Listed(catalog[j], showAll) ==> Shown(rows, j)
    {
      var info := catalog[i];
      if info.maxInputChannels == 0 {
        continue;
      }
      if !showAll && !LineInName(Lower(info.name)) {
        continue;
      }
      forall j | 0 <= j <= i && Listed(catalog[j], showAll) {
        ShownAppend(rows, RowFor(catalog, i), j);
      }
      rows := rows + [RowFor(catalog, i)];
    }
  }

  /**
   * The devices an input-device validation picks from a list selection: the
   * indices of the selected rows whose type is "Input".
   */
  function InputIndices(selection: seq<ListedDevice>): (ids: set<DeviceId>)
    ensures forall k :: 0 <= k < |selection| && selection[k].kind == Input ==> selection[k].index in ids
    ensures forall d :: d in ids ==> exists k :: 0 <= k < |selection| && selection[k].kind == Input && selection[k].index == d
  {
    set k | 0 <= k < |selection| && selection[k].kind == Input :: selection[k].index
  }

  /**
   * A selected device a recording accepts: the query succeeds, it reports
   * input channels and the probe stream opens.
   */
  predicate Usable(catalog: Catalog, d: DeviceId)
  {
    Known(catalog, d) && catalog[d].maxInputChannels > 0 && catalog[d].probeOk
  }

  /** The usable devices among the selected rows. */
  function UsableIndices(selection: seq<ListedDevice>, catalog: Catalog): set<DeviceId>
  {
    set k | 0 <= k < |selection| && Usable(catalog, selection[k].index) :: selection[k].index
  }

  /** The names of the selected rows that are not usable, in selection order. */
  function RejectedNames(selection: seq<ListedDevice>, catalog: Catalog): seq<string>
  {
    if selection == [] then []
    else
      var last := selection[|selection| - 1];
      RejectedNames(selection[..|selection| - 1], catalog) +
      (if Usable(catalog, last.index) then [] else [last.name])
  }

  /**
   * The probe loop of a recording start: each selected row is queried and
   * probed in turn; usable devices are collected, the others reported by name.
   */
  method ProbeSelection(selection: seq<ListedDevice>, catalog: Catalog)
    returns (usable: set<DeviceId>, rejected: seq<string>)
    ensures forall d :: d in usable <==>
      (Usable(catalog, d) && exists k :: 0 <= k < |selection| && selection[k].index == d)
    ensures usable == UsableIndices(selection, catalog)
    ensures rejected == RejectedNames(selection, catalog)
    ensures usable == {} ==> |rejected| == |selection|
  {
    usable, rejected := {}, [];
    for i := 0 to |selection|
      invariant usable == UsableIndices(selection[..i], catalog)
      invariant rejected == RejectedNames(selection[..i], catalog)
      invariant usable == {} ==> |rejected| == i
    {
      var row := selection[i];
      assert selection[..i + 1][..i] == selection[..i];
      if Usable(catalog, row.index) {
        usable := usable + {row.index};
      } else {
        rejected := rejected + [row.name];
      }
      assert usable == UsableIndices(selection[..i + 1], catalog) by {
        forall d | d in UsableIndices(selection[..i + 1], catalog) ensures d in usable {
          var k :| 0 <= k < i + 1 && Usable(catalog, selection[..i + 1][k].index) && selection[..i + 1][k].index == d;
          if k < i {
            assert selection[..i][k] == selection[k];
          }
        }
        forall d | d in usable ensures d in UsableIndices(selection[..i + 1], catalog) {
          if d != row.index {
            var k :| 0 <= k < i && Usable(catalog, selection[..i][k].index) && selection[..i][k].index == d;
            assert selection[..i + 1][k] == selection[..i][k];
          } else {
            assert selection[..i + 1][i] == row;
          }
        }
      }
    }
    assert selection[..|selection|] == selection;
  }
}
