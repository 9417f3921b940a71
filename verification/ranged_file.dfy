/** `withOffset` from src/fs.ts: a file handle that shows bytes
    [fromOffset, toOffset) of an inner file as a file of its own. */
module RangedFile {

  import opened Wrappers

  newtype byte = x: int | 0 <= x < 256

  /** `FileRange`: the window [fromOffset, toOffset) of the inner file. */
  datatype FileRange = FileRange(fromOffset: int, toOffset: int)

  /** The inner read of `length` bytes at `pos`, as a host file returns it:
      `length` bytes, those past the end of the content read as zero. */
  function ReadAt(content: seq<byte>, pos: nat, length: nat): (r: seq<byte>)
    ensures |r| == length
    ensures forall k :: 0 <= k < length && pos + k < |content| ==> r[k] == content[pos + k]
  {
    seq(length, k requires 0 <= k < length => if pos + k < |content| then content[pos + k] else 0)
  }

  /** The content after writing `data` at `pos`: a gap before `pos` is
      filled with zeros and the file grows when the write runs past its end.
      Writing nothing changes nothing. */
  function Overwrite(content: seq<byte>, pos: nat, data: seq<byte>): (r: seq<byte>)
    ensures |r| == if |data| > 0 && pos + |data| > |content| then pos + |data| else |content|
    ensures forall k :: 0 <= k < |data| ==> r[pos + k] == data[k]
    ensures forall k :: 0 <= k < |r| && !(pos <= k < pos + |data|) ==> r[k] == (if k < |content| then content[k] else 0)
  {
    var n := if |data| > 0 && pos + |data| > |content| then pos + |data| else |content|;
    seq(n, k requires 0 <= k < n =>
      if pos <= k < pos + |data| then data[k - pos]
      else if k < |content| then content[k] else 0)
  }

  /** How many bytes a read of `length` bytes at `pos` finds in the content. */
  function BytesFound(content: seq<byte>, pos: nat, length: nat): (n: nat)
    ensures n <= length && (n == 0 || pos + n <= |content|)
    ensures n == length || pos + n >= |content|
  {
    if pos >= |content| then 0 else Min(length, |content| - pos)
  }

  /** What `NormalFile.read(pos, length)` resolves to, with the position of
      the descriptor afterwards. `Buffer.alloc` refuses a negative length;
      Node's `fs.read` answers a read of nothing at once, refuses a position
      below -1, reads at the descriptor's own position for -1 and moves it
      past the bytes found, and reads at `pos` without moving it otherwise. */
  function HostRead(content: seq<byte>, cursor: nat, pos: int, length: int): (o: (Result<seq<byte>>, nat))
    ensures o.0.Failure? ==> o.0.error == "RangeError" && o.1 == cursor
    ensures o.0.Success? ==> length >= 0 && |o.0.value| == length
    ensures pos != -1 ==> o.1 == cursor
    ensures cursor <= o.1 <= if cursor < |content| then |content| else cursor
  {
    if length < 0 then (Failure("RangeError"), cursor)
    else if length == 0 then (Success([]), cursor)
    else if pos < -1 then (Failure("RangeError"), cursor)
    else if pos == -1 then (Success(ReadAt(content, cursor, length)), cursor + BytesFound(content, cursor, length))
    else (Success(ReadAt(content, pos, length)), cursor)
  }

  /** What `NormalFile.write(pos, data)` resolves to, with the content and
      the position of the descriptor afterwards. A descriptor not open for
      writing refuses with EBADF whatever the position; `fs.write` does not
      check the position, and a negative one writes at the descriptor's own
      position and moves it past the data. */
  function HostWrite(content: seq<byte>, cursor: nat, writable: bool, pos: int, data: seq<byte>): (o: (Result<nat>, seq<byte>, nat))
    ensures o.0.Failure? <==> !writable
    ensures o.0.Failure? ==> o.0.error == "EBADF" && o.1 == content && o.2 == cursor
    ensures o.0.Success? ==> o.0.value == |data|
    ensures pos >= 0 ==> o.2 == cursor
  {
    if !writable then (Failure("EBADF"), content, cursor)
    else if pos < 0 then (Success(|data|), Overwrite(content, cursor, data), cursor + |data|)
    else (Success(|data|), Overwrite(content, pos, data), cursor)
  }

  /** A host file handle (the `File` interface) on a Node descriptor,
      modelled by the file's bytes and the descriptor's own position.
      `writable` says whether the descriptor accepts writes:
      `NormalFile.open` opens it with flag 'r', so a `NormalFile` does not,
      and the host refuses each write with EBADF. */
  class ByteFile {
    var content: seq<byte>
    var cursor: nat
    var disposed: bool
    const writable: bool

    constructor (content: seq<byte>, writable: bool)
      ensures this.content == content && this.writable == writable
      ensures cursor == 0 && !disposed
    {
      this.content := content;
      this.writable := writable;
      cursor := 0;
      disposed := false;
    }

    /** `NormalFile.open`: a handle on the file's bytes, opened read-only,
        positioned at the start. */
    static method OpenNormal(content: seq<byte>) returns (f: ByteFile)
      ensures fresh(f) && f.content == content && f.cursor == 0 && !f.writable && !f.disposed
    {
      f := new ByteFile(content, false);
    }

    method Read(pos: int, length: int) returns (r: Result<seq<byte>>)
      modifies this`cursor
      ensures (r, cursor) == HostRead(content, old(cursor), pos, length)
    {
      if length < 0 {
        r := Failure("RangeError");
      } else if length == 0 {
        r := Success([]);
      } else if pos < -1 {
        r := Failure("RangeError");
      } else if pos == -1 {
        r := Success(ReadAt(content, cursor, length));
        cursor := cursor + BytesFound(content, cursor, length);
      } else {
        r := Success(ReadAt(content, pos, length));
      }
    }

    method Write(pos: int, data: seq<byte>) returns (r: Result<nat>)
      modifies this`content, this`cursor
      ensures (r, content, cursor) == HostWrite(old(content), old(cursor), writable, pos, data)
    {
      if !writable {
        r := Failure("EBADF");
      } else if pos < 0 {
        content := Overwrite(content, cursor, data);
        cursor := cursor + |data|;
        r := Success(|data|);
      } else {
        content := Overwrite(content, pos, data);
        r := Success(|data|);
      }
    }

    method Dispose()
      modifies this`disposed
      ensures disposed
    {
      disposed := true;
    }
  }

  /** A host read either fails with a RangeError, exactly when the length is
      negative or the length is positive and the position below -1, or it
      gives `length` bytes of the content: at `pos`, or at the descriptor's
      position for -1. */
  lemma HostReadOutcome(content: seq<byte>, cursor: nat, pos: int, length: int)
    ensures HostRead(content, cursor, pos, length).0.Failure? <==> length < 0 || (length > 0 && pos < -1)
    ensures length >= 0 && pos >= 0 ==>
              HostRead(content, cursor, pos, length) == (Success(ReadAt(content, pos, length)), cursor)
    ensures length >= 0 && pos == -1 ==>
              HostRead(content, cursor, pos, length).0 == Success(ReadAt(content, cursor, length))
  {
  }

  /** On a descriptor still at the start, as `NormalFile.open` leaves it, a
      read at position -1 gives what a read at 0 gives: a window that starts
      at -1 reads from the start of the file. */
  lemma FreshCursorReadsFromStart(content: seq<byte>, length: int)
    ensures HostRead(content, 0, -1, length).0 == HostRead(content, 0, 0, length).0
  {
  }

  /** Two reads at the descriptor's position that stay inside the content
      read what one read of both lengths would. */
  lemma {:induction false} SequentialCursorReads(content: seq<byte>, cursor: nat, n: nat, m: nat)
    requires 0 < n && 0 < m && cursor + n + m <= |content|
    ensures var (first, next) := HostRead(content, cursor, -1, n);
            var (second, last) := HostRead(content, next, -1, m);
            first.Success? && second.Success? && last == cursor + n + m &&
            first.value + second.value == ReadAt(content, cursor, n + m)
  {
    var (first, next) := HostRead(content, cursor, -1, n);
    assert next == cursor + n;
    var (second, last) := HostRead(content, next, -1, m);
    assert first.value + second.value == ReadAt(content, cursor, n + m) by {
      var joined := first.value + second.value;
      forall k | 0 <= k < n + m
        ensures joined[k] == ReadAt(content, cursor, n + m)[k]
      {
        if k < n {
          assert joined[k] == first.value[k];
        } else {
          assert joined[k] == second.value[k - n];
        }
      }
    }
  }

  function Min(a: int, b: int): int {
    if a < b then a else b
  }

  /** The inner read a ranged `read(pos, length)` issues: at `pos + fromOffset`,
      for as many bytes as fit before `toOffset`. */
  function ReadRequest(r: FileRange, pos: int, length: int): (req: (int, int))
    ensures req.0 == pos + r.fromOffset
    ensures req.0 + req.1 <= r.toOffset && req.1 <= length
    ensures req.1 == length || req.0 + req.1 == r.toOffset
  {
    var start := pos + r.fromOffset;
    var end := Min(start + length, r.toOffset);
    (start, end - start)
  }

  /** `data.subarray(0, k)`: a negative `k` counts back from the end. */
  function SubarrayTo(data: seq<byte>, k: int): (r: seq<byte>)
    ensures k >= 0 ==> r == data[..Min(k, |data|)]
    ensures k < 0 ==> r == data[..if |data| + k < 0 then 0 else |data| + k]
  {
    if k >= 0 then data[..Min(k, |data|)]
    else data[..if |data| + k < 0 then 0 else |data| + k]
  }

  /** The inner write a ranged `write` issues AS WRITTEN in the source:
      the data is cut with `subarray(0, end - start)`, whose negative end
      counts back from the end of the data. */
  function WriteRequestAsWritten(r: FileRange, pos: int, data: seq<byte>): (req: (int, seq<byte>))
    ensures req.0 == pos + r.fromOffset
    ensures pos + r.fromOffset <= r.toOffset ==> req.1 == data[..Min(|data|, r.toOffset - req.0)]
  {
    var start := pos + r.fromOffset;
    var end := Min(start + |data|, r.toOffset);
    (start, SubarrayTo(data, end - start))
  }

  /** A write at local offset 12 into the window [0, 10) with five bytes
      reaches the inner file at offsets 12..14, past `toOffset`. */
  lemma WriteAsWrittenOvershoots()
    ensures var req := WriteRequestAsWritten(FileRange(0, 10), 12, [1, 2, 3, 4, 5]);
            req == (12, [1, 2, 3]) && req.0 + |req.1| > 10
  {
    var data: seq<byte> := [1, 2, 3, 4, 5];
    assert SubarrayTo(data, -2) == data[..3];
    assert data[..3] == [1, 2, 3];
  }

  /** The inner write a ranged `write` should issue: the data cut to what
      fits before `toOffset`, nothing when the position is past the window. */
  function WriteRequest(r: FileRange, pos: int, data: seq<byte>): (req: (int, seq<byte>))
    ensures req.0 == pos + r.fromOffset
    ensures |req.1| <= |data| && req.1 == data[..|req.1|]
    ensures req.0 + |req.1| <= r.toOffset || |req.1| == 0
    ensures |req.1| == |data| || req.0 + |req.1| == r.toOffset || (req.0 >= r.toOffset && |req.1| == 0)
  {
    var start := pos + r.fromOffset;
    var end := Min(start + |data|, r.toOffset);
    (start, data[..if end - start < 0 then 0 else end - start])
  }

  /** Within the intended write, every byte the inner file receives lies
      inside the window whenever the local position is not negative. */
  lemma WriteStaysInWindow(r: FileRange, pos: int, data: seq<byte>, k: int)
    requires 0 <= r.fromOffset && pos >= 0
    requires 0 <= k < |WriteRequest(r, pos, data).1|
    ensures r.fromOffset <= WriteRequest(r, pos, data).0 + k < r.toOffset
  {
  }

  /** The two versions agree whenever the local position lies in the window:
      only a position past the end exposes the difference. */
  lemma {:induction false} WriteRequestAgreesInWindow(r: FileRange, pos: int, data: seq<byte>)
    requires pos + r.fromOffset <= r.toOffset
    ensures WriteRequestAsWritten(r, pos, data) == WriteRequest(r, pos, data)
  {
  }

  /** The object `withOffset(file, offset)` returns. Its `write` issues the
      intended cut `WriteRequest`; the cut as written, `WriteRequestAsWritten`,
      differs only for a position past the window. */
  class OffsetFile {
    const inner: ByteFile
    const range: FileRange

    constructor (inner: ByteFile, range: FileRange)
      ensures this.inner == inner && this.range == range
    {
      this.inner := inner;
      this.range := range;
    }

    /** The apparent `length` of the ranged file. */
    function Length(): int
      reads this
    {
      range.toOffset - range.fromOffset
    }

    method Read(pos: int, length: int) returns (r: Result<seq<byte>>)
      modifies inner`cursor
      ensures var (start, count) := ReadRequest(range, pos, length);
              (r, inner.cursor) == HostRead(inner.content, old(inner.cursor), start, count)
    {
      var (start, count) := ReadRequest(range, pos, length);
      r := inner.Read(start, count);
    }

    method Write(pos: int, data: seq<byte>) returns (r: Result<nat>)
      modifies inner`content, inner`cursor
      ensures var (start, sent) := WriteRequest(range, pos, data);
              (r, inner.content, inner.cursor) == HostWrite(old(inner.content), old(inner.cursor), inner.writable, start, sent)
    {
      var (start, sent) := WriteRequest(range, pos, data);
      r := inner.Write(start, sent);
    }

    method Dispose()
      modifies inner`disposed
      ensures inner.disposed
    {
      inner.Dispose();
    }
  }

  /** Reading the whole window through the ranged file reads the inner file
      at `fromOffset` for the window's length. */
  lemma ReadWholeWindow(r: FileRange)
    requires r.fromOffset <= r.toOffset
    ensures ReadRequest(r, 0, r.toOffset - r.fromOffset) == (r.fromOffset, r.toOffset - r.fromOffset)
  {
  }

  /** A ranged write leaves every inner byte at or past `toOffset` as it was. */
  lemma {:induction false} WriteKeepsBytesPastWindow(content: seq<byte>, r: FileRange, pos: nat, data: seq<byte>, k: int)
    requires 0 <= r.fromOffset <= r.toOffset
    requires r.toOffset <= k < |content|
    ensures var req := WriteRequest(r, pos, data);
            var after := Overwrite(content, req.0, req.1);
            k < |after| && after[k] == content[k]
  {
    var req := WriteRequest(r, pos, data);
    assert !(req.0 <= k < req.0 + |req.1|);
  }

  /** What is written through the window at local offset 0 is read back
      through the window at local offset 0, and sits in the inner file at
      `fromOffset`. */
  method WindowRoundTrip(f: ByteFile, r: FileRange, data: seq<byte>) returns (back: Result<seq<byte>>, direct: Result<seq<byte>>)
    requires 0 <= r.fromOffset && |data| <= r.toOffset - r.fromOffset
    requires f.writable
    modifies f`content, f`cursor
    ensures back == Success(data) && direct == Success(data)
  {
    var w := new OffsetFile(f, r);
    assert data[..|data|] == data;
    assert WriteRequest(r, 0, data) == (r.fromOffset, data);
    var n := w.Write(0, data);
    ReadBackWritten(old(f.content), r.fromOffset, data);
    assert ReadRequest(r, 0, |data|) == (r.fromOffset, |data|);
    back := w.Read(0, |data|);
    direct := f.Read(r.fromOffset, |data|);
  }

  /** Bytes written at `pos` are read back from `pos`. */
  lemma ReadBackWritten(content: seq<byte>, pos: nat, data: seq<byte>)
    ensures ReadAt(Overwrite(content, pos, data), pos, |data|) == data
  {
  }
}
