/**
 * Audio data as the recorder moves it around. Sample values are opaque: the
 * model never computes with them, it only keeps them in order. A row is one
 * frame (one sample per channel); a chunk is what one stream callback delivers.
 */
module Audio {

  /** One sample value; the 32-bit float is kept opaque. */
  type Sample = real

  /** One frame: a sample for each channel. */
  type Row = seq<Sample>

  /** One callback delivery: consecutive frames. */
  type Chunk = seq<Row>

  /** The fixed sample rate of every stream and every written file. */
  const SampleRate: nat := 44100

  /** Sum of the chunk lengths. */
  function TotalRows(chunks: seq<Chunk>): nat
  {
    if chunks == [] then 0 else |chunks[0]| + TotalRows(chunks[1..])
  }

  /** `np.concatenate(chunks)` along the frame axis: the chunks' rows, in order. */
  function Concat(chunks: seq<Chunk>): (rows: seq<Row>)
    ensures |rows| == TotalRows(chunks)
  {
    if chunks == [] then [] else chunks[0] + Concat(chunks[1..])
  }

  /**
   * Appending a chunk to a session list appends its rows to what a later
   * concatenation yields: the exported rows are the delivered rows in arrival order.
   */
  lemma {:induction false} ConcatAppend(chunks: seq<Chunk>, c: Chunk)
    ensures Concat(chunks + [c]) == Concat(chunks) + c
  {
    if chunks == [] {
      assert [c][1..] == [];
    } else {
      assert (chunks + [c])[1..] == chunks[1..] + [c];
      ConcatAppend(chunks[1..], c);
    }
  }

  /** Every row has `width` samples. */
  predicate AllWidth(rows: seq<Row>, width: nat)
  {
    forall i :: 0 <= i < |rows| ==> |rows[i]| == width
  }

  /** The samples of all rows, row after row (the flat buffer numpy holds). */
  function Flatten(rows: seq<Row>): seq<Sample>
  {
    if rows == [] then [] else rows[0] + Flatten(rows[1..])
  }

  /** A flat buffer of `n` samples cuts into whole rows of `width` (numpy's reshape test). */
  predicate FitsRows(n: nat, width: nat)
    decreases n
  {
    n == 0 || (width > 0 && n >= width && FitsRows(n - width, width))
  }

  /** `reshape(-1, width)`: cut the flat samples into rows of `width`. */
  function Reshape(samples: seq<Sample>, width: nat): (rows: seq<Row>)
    requires width > 0 && FitsRows(|samples|, width)
    ensures AllWidth(rows, width)
    decreases |samples|
  {
    if samples == [] then [] else [samples[..width]] + Reshape(samples[width..], width)
  }

  /** Rows of a common width flatten to a buffer that cuts back into whole rows. */
  lemma {:induction false} FlattenFits(rows: seq<Row>, width: nat)
    requires AllWidth(rows, width)
    ensures FitsRows(|Flatten(rows)|, width)
  {
    if rows != [] {
      FlattenFits(rows[1..], width);
      assert |Flatten(rows)| == width + |Flatten(rows[1..])|;
    }
  }

  /** Reshaping to the rows' own width gives the rows back. */
  lemma {:induction false} ReshapeFlatten(rows: seq<Row>, width: nat)
    requires width > 0 && AllWidth(rows, width)
    ensures FitsRows(|Flatten(rows)|, width)
    ensures Reshape(Flatten(rows), width) == rows
  {
    FlattenFits(rows, width);
    if rows != [] {
      ReshapeFlatten(rows[1..], width);
      var flat := Flatten(rows);
      assert flat == rows[0] + Flatten(rows[1..]);
      assert flat[..width] == rows[0];
      assert flat[width..] == Flatten(rows[1..]);
    }
  }

  /** Flattening a reshape gives the samples back. */
  lemma {:induction false} FlattenReshape(samples: seq<Sample>, width: nat)
    requires width > 0 && FitsRows(|samples|, width)
    ensures Flatten(Reshape(samples, width)) == samples
    decreases |samples|
  {
    if samples != [] {
      FlattenReshape(samples[width..], width);
      assert samples == samples[..width] + samples[width..];
    }
  }
}
