/**
 * The instant-replay queue of one device: a deque with a maximum length that
 * keeps only the most recent rows. Extending it appends the new rows one by
 * one and drops the oldest row whenever the length would exceed the maximum.
 */
module Replay {
  import opened Audio

  /** The maximum length of a replay queue for a buffer of `minutes` minutes. */
  function ReplayCapacity(minutes: nat): (cap: nat)
    ensures cap == 2_646_000 * minutes   // 44100 rows per second, 60 seconds per minute
  {
    SampleRate * minutes * 60
  }

  /** The last `capacity` elements of `s` (all of `s` when it is shorter). */
  function Window<T>(s: seq<T>, capacity: nat): (w: seq<T>)
    ensures |w| == if |s| <= capacity then |s| else capacity
    ensures w == s[|s| - |w|..]
  {
    if |s| <= capacity then s else s[|s| - capacity..]
  }

  /** A suffix of `s` that is at least as long as the window has the same window. */
  lemma WindowOfSuffix<T>(s: seq<T>, k: nat, capacity: nat)
    requires k <= |s|
    requires |s| - k >= capacity || k == 0
    ensures Window(s[k..], capacity) == Window(s, capacity)
  {
    if k > 0 {
      assert s[k..][|s| - k - capacity..] == s[|s| - capacity..];
    }
  }

  /**
   * Extending a queue that already holds the window of `a` by `b` leaves the
   * window of `a + b`: a deque forgets nothing a later window would need.
   */
  lemma WindowCompose<T>(a: seq<T>, b: seq<T>, capacity: nat)
    ensures Window(Window(a, capacity) + b, capacity) == Window(a + b, capacity)
  {
    var w := Window(a, capacity);
    var k := |a| - |w|;
    assert (a + b)[k..] == w + b;
    WindowOfSuffix(a + b, k, capacity);
  }

  /** One append to a bounded deque: drop the oldest element first when full. */
  lemma WindowPush<T>(s: seq<T>, x: T, capacity: nat)
    ensures Window(s + [x], capacity) ==
      if capacity == 0 then []
      else if |Window(s, capacity)| == capacity then Window(s, capacity)[1..] + [x]
      else Window(s, capacity) + [x]
  {
    var w := Window(s, capacity);
    if capacity > 0 && |w| == capacity {
      assert (s + [x])[|s| + 1 - capacity..] == w[1..] + [x];
    }
  }

  /**
   * `queue.extend(rows)` on a deque whose maximum length is `capacity`: the
   * rows are appended in order, each evicting the oldest element when the
   * queue is full. The result is the most recent `capacity` rows of the old
   * contents followed by the new rows.
   */
  method ExtendBounded(queue: seq<Row>, rows: seq<Row>, capacity: nat) returns (r: seq<Row>)
    requires |queue| <= capacity
    ensures r == Window(queue + rows, capacity)
    ensures |r| <= capacity
  {
    r := queue;
    ghost var seen := queue;
    for i := 0 to |rows|
      invariant seen == queue + rows[..i]
      invariant r == Window(seen, capacity)
    {
      WindowPush(seen, rows[i], capacity);
      if capacity == 0 {
        // a deque with maximum length 0 stays empty
      } else if |r| == capacity {
        r := r[1..] + [rows[i]];
      } else {
        r := r + [rows[i]];
      }
      seen := seen + [rows[i]];
      assert queue + rows[..i + 1] == seen;
    }
    assert queue + rows[..|rows|] == queue + rows;
  }

  /** The queue after a sequence of extends, one per delivered chunk, in order. */
  function ExtendAll(queue: seq<Row>, chunks: seq<Chunk>, capacity: nat): seq<Row>
  {
    if chunks == [] then queue
    else Window(ExtendAll(queue, chunks[..|chunks| - 1], capacity) + chunks[|chunks| - 1], capacity)
  }

  /**
   * After any sequence of extends, a queue that started within its capacity
   * holds exactly the most recent `capacity` rows of everything it received,
   * in arrival order.
   */
  lemma {:induction false} ExtendAllKeepsLatest(queue: seq<Row>, chunks: seq<Chunk>, capacity: nat)
    requires |queue| <= capacity
    ensures ExtendAll(queue, chunks, capacity) == Window(queue + Concat(chunks), capacity)
    ensures |ExtendAll(queue, chunks, capacity)| <= capacity
  {
    if chunks == [] {
    } else {
      var init, last := chunks[..|chunks| - 1], chunks[|chunks| - 1];
      assert chunks == init + [last];
      ExtendAllKeepsLatest(queue, init, capacity);
      ConcatAppend(init, last);
      WindowCompose(queue + Concat(init), last, capacity);
      assert queue + Concat(init) + last == queue + Concat(chunks);
    }
  }
}
