/** `read_until`, synchronous and asynchronous: read into a flat buffer until a delimiter shows up,
    searching each time only where it can have appeared since.

    The device delivers a stream in pieces of any size; what counts is the whole stream, that is the
    bytes already in the buffer and those still to come. */
module ReadUntil {
  import opened FlatBuffers
  import opened Sequences

  datatype Answer =
    | Found(end: nat)      // the delimiter ends here, counted from the front of the buffer
    | NotFound             // the buffer is full without one
    | EndOfInput           // the device has no more

  // ---- what is to be found ----

  predicate OccursAt(s: seq<Byte>, delim: seq<Byte>, i: nat) {
    i + |delim| <= |s| && s[i..i + |delim|] == delim
  }

  /** The search that starts over on the whole stream, cut off where the buffer is full. */
  function Naive(stream: seq<Byte>, delim: seq<Byte>, max: nat, i: nat): Answer
    decreases |stream| + 1 - i
  {
    if i + |delim| > Min(|stream|, max) then if |stream| >= max then NotFound else EndOfInput
    else if OccursAt(stream, delim, i) then Found(i + |delim|)
    else Naive(stream, delim, max, i + 1)
  }

  /** It finds the first occurrence that fits, and nothing exactly when there is none. */
  lemma {:induction false} NaiveIsFirst(stream: seq<Byte>, delim: seq<Byte>, max: nat, i: nat)
    ensures match Naive(stream, delim, max, i)
            case Found(end) =>
              && i + |delim| <= end <= max && OccursAt(stream, delim, end - |delim|)
              && forall j | i <= j < end - |delim| :: !OccursAt(stream, delim, j)
            case NotFound =>
              |stream| >= max && forall j | i <= j && j + |delim| <= max :: !OccursAt(stream, delim, j)
            case EndOfInput =>
              |stream| < max && forall j | i <= j :: !OccursAt(stream, delim, j)
    decreases |stream| + 1 - i
  {
    if i + |delim| > Min(|stream|, max) {
    } else if !OccursAt(stream, delim, i) {
      NaiveIsFirst(stream, delim, max, i + 1);
    }
  }

  /** Places without an occurrence may be skipped. */
  lemma {:induction false} NaiveSkips(stream: seq<Byte>, delim: seq<Byte>, max: nat, i: nat, k: nat)
    requires i <= k && (i < k ==> k + |delim| <= Min(|stream|, max) + 1)
    requires forall j | i <= j < k :: !OccursAt(stream, delim, j)
    ensures Naive(stream, delim, max, i) == Naive(stream, delim, max, k)
    decreases k - i
  {
    if i < k {
      assert !OccursAt(stream, delim, i);
      NaiveSkips(stream, delim, max, i + 1, k);
    }
  }

  lemma OccursInPrefix(prefix: seq<Byte>, rest: seq<Byte>, delim: seq<Byte>, i: nat)
    requires i + |delim| <= |prefix|
    ensures OccursAt(prefix, delim, i) <==> OccursAt(prefix + rest, delim, i)
  {
    assert (prefix + rest)[i..i + |delim|] == prefix[i..i + |delim|];
  }

  // ---- the device ----

  class Device {
    var unread: seq<Byte>
    var sizes: seq<nat>   // how much the device is willing to deliver at each call

    constructor (bytes: seq<Byte>, pieces: seq<nat>)
      ensures unread == bytes && sizes == pieces
    {
      unread, sizes := bytes, pieces;
    }

    /** Some bytes, at least one and at most `limit`; none at the end of the stream. */
    method ReadSome(limit: nat) returns (bytes: seq<Byte>)
      requires limit > 0
      modifies this
      ensures |bytes| <= limit && bytes + unread == old(unread)
      ensures bytes == [] <==> old(unread) == []
    {
      var n := Min(limit, |unread|);
      if |sizes| > 0 {
        n := Min(n, Max(1, sizes[0]));
        sizes := sizes[1..];
      }
      bytes, unread := unread[..n], unread[n..];
    }
  }

  /** No occurrence ends within the first `searched` bytes. */
  ghost predicate NoneBefore(s: seq<Byte>, delim: seq<Byte>, searched: nat) {
    forall i: nat | i + |delim| <= searched :: !OccursAt(s, delim, i)
  }

  /** How much to ask the device for. */
  function BytesToRead(size: nat, capacity: nat, max: nat): (n: nat)
    requires size < max && size <= capacity
    ensures 0 < n <= max - size
  {
    Min(Max(512, capacity - size), Min(65536, max - size))
  }

  /** The device has filled the first prepared bytes, and they are committed. */
  method Receive(buffer: FlatBuffer, bytes: seq<Byte>)
    requires buffer.Valid() && buffer.block != null && |bytes| <= buffer.ready - buffer.last
    modifies buffer`last, buffer.block
    ensures buffer.Valid() && buffer.Contents() == old(buffer.Contents()) + bytes
  {
    ghost var here := buffer.last;
    buffer.Fill(bytes);
    assert buffer.block[here..here + |bytes|] == bytes;
    buffer.Commit(|bytes|);
  }

  /** One turn of the outer loop: ask for more, unless the buffer is full or the stream has ended. */
  method ReadMore(device: Device, buffer: FlatBuffer) returns (n: nat)
    requires buffer.Valid() && buffer.Size() < buffer.max
    modifies device, buffer, buffer.block
    ensures buffer.Valid() && buffer.Size() <= buffer.max
    ensures buffer.block == old(buffer.block) || fresh(buffer.block)
    ensures buffer.Contents() + device.unread == old(buffer.Contents() + device.unread)
    ensures old(buffer.Contents()) <= buffer.Contents() && |buffer.Contents()| == |old(buffer.Contents())| + n
    ensures n == |old(device.unread)| - |device.unread| && (n == 0 <==> old(device.unread) == [])
  {
    hide BytesToRead, Max, Min;
    ghost var before := buffer.Contents();
    var want := BytesToRead(buffer.Size(), buffer.Capacity(), buffer.max);
    ServedExactly(buffer.Form(), want);
    var ok := buffer.Prepare(want);
    var bytes := device.ReadSome(want);
    Receive(buffer, bytes);
    n := |bytes|;
    Associates(before, bytes, device.unread);
  }

  // ---- the search in the buffer ----

  /** The scan for a single byte, from where the last one stopped. */
  method SearchByte(data: seq<Byte>, delim: Byte, searched: nat) returns (end: nat)
    requires searched <= |data| && NoneBefore(data, [delim], searched)
    ensures end <= |data| && NoneBefore(data, [delim], if end == 0 then |data| else end - 1)
    ensures end > 0 ==> OccursAt(data, [delim], end - 1)
  {
    var i := searched;
    while i < |data|
      invariant searched <= i <= |data| && NoneBefore(data, [delim], i)
    {
      assert data[i..i + 1] == [data[i]];
      if data[i] == delim {
        return i + 1;
      }
      i := i + 1;
    }
    end := 0;
  }

  /** The scan for several bytes, backing up over a part that may have been at the boundary. */
  method SearchText(data: seq<Byte>, delim: seq<Byte>, searched: nat) returns (end: nat)
    requires delim != [] && searched <= |data| && NoneBefore(data, delim, searched)
    ensures end <= |data| && NoneBefore(data, delim, if end == 0 then |data| else end - 1)
    ensures end > 0 ==> end >= |delim| && OccursAt(data, delim, end - |delim|)
  {
    var i := if searched > |delim| - 1 then searched - |delim| + 1 else 0;
    if |data| >= |delim| {
      while i <= |data| - |delim|
        invariant i <= |data| - |delim| + 1 && forall j: nat | j < i :: !OccursAt(data, delim, j)
      {
        if data[i..i + |delim|] == delim {
          return i + |delim|;
        }
        i := i + 1;
      }
    }
    end := 0;
  }

  /** What a search of the buffer says about the stream. */
  lemma SearchAnswers(data: seq<Byte>, unread: seq<Byte>, delim: seq<Byte>, max: nat, end: nat)
    requires delim != [] && |data| <= max && end <= |data|
    requires NoneBefore(data, delim, if end == 0 then |data| else end - 1)
    requires end > 0 ==> end >= |delim| && OccursAt(data, delim, end - |delim|)
    ensures end > 0 ==> Naive(data + unread, delim, max, 0) == Found(end)
    ensures end == 0 && |data| == max ==> Naive(data + unread, delim, max, 0) == NotFound
    ensures end == 0 && |data| < max && unread == [] ==> Naive(data + unread, delim, max, 0) == EndOfInput
  {
    var s := data + unread;
    var k := if end > 0 then end - |delim| else if |data| < |delim| then 0 else |data| - |delim| + 1;
    forall j: nat | j < k
      ensures !OccursAt(s, delim, j)
    {
      OccursInPrefix(data, unread, delim, j);
    }
    if end > 0 {
      OccursInPrefix(data, unread, delim, k);
    }
    NaiveSkips(s, delim, max, 0, k);
  }

  lemma GrownNoneBefore(was: seq<Byte>, now: seq<Byte>, delim: seq<Byte>)
    requires was <= now && NoneBefore(was, delim, |was|)
    ensures NoneBefore(now, delim, |was|)
  {
    forall i: nat | i + |delim| <= |was|
      ensures !OccursAt(now, delim, i)
    {
      OccursInPrefix(was, now[|was|..], delim, i);
      assert now == was + now[|was|..];
    }
  }

  // ---- read_until ----

  method ReadUntilByte(device: Device, buffer: FlatBuffer, delim: Byte) returns (r: Answer)
    requires buffer.Valid() && buffer.Size() <= buffer.max
    modifies device, buffer, buffer.block
    ensures buffer.Valid() && buffer.Contents() + device.unread == old(buffer.Contents() + device.unread)
    ensures r == Naive(old(buffer.Contents() + device.unread), [delim], buffer.max, 0)
    ensures r.Found? ==> r.end <= |buffer.Contents()|
  {
    var searched: nat := 0;
    ghost var stream := buffer.Contents() + device.unread;
    while true
      invariant buffer.Valid() && buffer.Size() <= buffer.max
      invariant buffer.block == old(buffer.block) || fresh(buffer.block)
      invariant buffer.Contents() + device.unread == stream
      invariant searched <= |buffer.Contents()| && NoneBefore(buffer.Contents(), [delim], searched)
      decreases |device.unread|
    {
      ghost var was := buffer.Contents();
      var data := if buffer.block == null then [] else buffer.block[buffer.first..buffer.last];
      var end := SearchByte(data, delim, searched);
      SearchAnswers(was, device.unread, [delim], buffer.max, end);
      if end > 0 {
        return Found(end);
      }
      searched := |data|;
      if buffer.Size() == buffer.max {
        return NotFound;
      }
      var n := ReadMore(device, buffer);
      if n == 0 {
        return EndOfInput;
      }
      GrownNoneBefore(was, buffer.Contents(), [delim]);
    }
  }

  method ReadUntilText(device: Device, buffer: FlatBuffer, delim: seq<Byte>) returns (r: Answer)
    requires buffer.Valid() && buffer.Size() <= buffer.max
    modifies device, buffer, buffer.block
    ensures buffer.Valid() && buffer.Contents() + device.unread == old(buffer.Contents() + device.unread)
    ensures r == Naive(old(buffer.Contents() + device.unread), delim, buffer.max, 0)
    ensures r.Found? ==> r.end <= |buffer.Contents()|
  {
    if delim == [] {
      return Found(0);
    }
    if |delim| == 1 {
      assert delim == [delim[0]];
      r := ReadUntilByte(device, buffer, delim[0]);
      return;
    }
    var searched: nat := 0;
    ghost var stream := buffer.Contents() + device.unread;
    while true
      invariant buffer.Valid() && buffer.Size() <= buffer.max
      invariant buffer.block == old(buffer.block) || fresh(buffer.block)
      invariant buffer.Contents() + device.unread == stream
      invariant searched <= |buffer.Contents()| && NoneBefore(buffer.Contents(), delim, searched)
      decreases |device.unread|
    {
      ghost var was := buffer.Contents();
      var data := if buffer.block == null then [] else buffer.block[buffer.first..buffer.last];
      var end := SearchText(data, delim, searched);
      SearchAnswers(was, device.unread, delim, buffer.max, end);
      if end > 0 {
        return Found(end);
      }
      searched := |data|;
      if buffer.Size() == buffer.max {
        return NotFound;
      }
      var n := ReadMore(device, buffer);
      if n == 0 {
        return EndOfInput;
      }
      GrownNoneBefore(was, buffer.Contents(), delim);
    }
  }

  // ---- async_read_until ----

  datatype Delim = One(byte: Byte) | Text(text: seq<Byte>)

  function Bytes(delim: Delim): seq<Byte> {
    match delim
    case One(b) => [b]
    case Text(t) => t
  }

  /** `read_until_state`: the same search, carried from one completion to the next. */
  class ReadUntilState {
    const device: Device
    const buffer: FlatBuffer
    const delim: Delim
    var searched: nat
    var answer: Answer

    ghost predicate Valid()
      reads this, buffer, buffer.block
    {
      && buffer.Valid() && buffer.Size() <= buffer.max
      && searched <= |buffer.Contents()| && NoneBefore(buffer.Contents(), Bytes(delim), searched)
    }

    constructor (d: Device, b: FlatBuffer, pattern: Delim)
      requires b.Valid() && b.Size() <= b.max && Bytes(pattern) != []
      ensures device == d && buffer == b && delim == pattern && searched == 0 && Valid()
    {
      device, buffer, delim, searched, answer := d, b, pattern, 0, EndOfInput;
    }

    /** `search` answers the end of the delimiter, or zero. */
    method Search() returns (end: nat)
      requires Valid() && Bytes(delim) != []
      modifies this`searched
      ensures Valid() && (end == 0 ==> searched == |buffer.Contents()|)
      ensures end > 0 ==> Naive(buffer.Contents() + device.unread, Bytes(delim), buffer.max, 0) == Found(end)
      ensures end <= |buffer.Contents()|
      ensures end == 0 && |buffer.Contents()| == buffer.max ==>
                Naive(buffer.Contents() + device.unread, Bytes(delim), buffer.max, 0) == NotFound
      ensures end == 0 && |buffer.Contents()| < buffer.max && device.unread == [] ==>
                Naive(buffer.Contents() + device.unread, Bytes(delim), buffer.max, 0) == EndOfInput
    {
      var data := if buffer.block == null then [] else buffer.block[buffer.first..buffer.last];
      match delim {
        case One(b) => end := SearchByte(data, b, searched);
        case Text(t) => end := SearchText(data, t, searched);
      }
      SearchAnswers(data, device.unread, Bytes(delim), buffer.max, end);
      if end == 0 {
        searched := |data|;
      }
    }

    /** `search_and_read`: complete, or start a read whose completion comes back here. */
    method SearchAndRead()
      requires Valid() && Bytes(delim) != []
      modifies this, device, buffer, buffer.block
      ensures Valid() && buffer.Contents() + device.unread == old(buffer.Contents() + device.unread)
      ensures answer == Naive(old(buffer.Contents() + device.unread), Bytes(delim), buffer.max, 0)
      ensures answer.Found? ==> answer.end <= |buffer.Contents()|
      decreases |device.unread|, 1
    {
      var end := Search();
      if end > 0 {
        answer := Found(end);
      } else if buffer.Size() == buffer.max {
        answer := NotFound;
      } else {
        DoRead();
      }
    }

    /** `do_read` and the completion `on_read`. */
    method DoRead()
      requires Valid() && Bytes(delim) != [] && searched == |buffer.Contents()| < buffer.max
      modifies this, device, buffer, buffer.block
      ensures Valid() && buffer.Contents() + device.unread == old(buffer.Contents() + device.unread)
      ensures answer == Naive(old(buffer.Contents() + device.unread), Bytes(delim), buffer.max, 0)
      ensures answer.Found? ==> answer.end <= |buffer.Contents()|
      decreases |device.unread|, 0
    {
      ghost var was := buffer.Contents();
      SearchAnswers(was, device.unread, Bytes(delim), buffer.max, 0);
      var n := ReadMore(device, buffer);
      GrownNoneBefore(was, buffer.Contents(), Bytes(delim));
      if n == 0 {
        answer := EndOfInput;
      } else {
        SearchAndRead();
      }
    }
  }
}
