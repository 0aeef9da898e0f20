/** `WrappingStream`: a stream that forwards every call to the stream it
    wraps until it is disposed, and after that refuses every call without
    touching the wrapped stream. The viewer wraps a `MemoryStream` over a
    file's bytes, so the wrapped stream is modelled as an in-memory stream:
    its bytes, its position and what it supports. */
module WrappingStream {
  import opened Wrappers

  datatype SeekOrigin = Begin | Current | End

  /** The state of an in-memory stream. The position may lie past the end,
      as after a `Seek` there. */
  datatype StreamState = StreamState(canRead: bool, canSeek: bool, canWrite: bool, data: seq<bv8>, position: nat)

  /** What `BeginRead` and `BeginWrite` hand back for the matching `End`
      call: the transfer is already done. */
  datatype AsyncResult = ReadDone(bytes: seq<bv8>) | WriteDone

  function Zeros(n: nat): (z: seq<bv8>)
    ensures |z| == n && forall i :: 0 <= i < n ==> z[i] == 0
  {
    if n == 0 then [] else Zeros(n - 1) + [0]
  }

  // ---------------------------------------------------------------------
  // The wrapped stream's operations

  /** `Read`: up to `count` bytes from the position on; none at or past the
      end. */
  function ReadOp(st: StreamState, count: int): (r: (StreamState, Result<seq<bv8>>))
  {
    if count < 0 then (st, Failure(ArgumentOutOfRange))
    else if !st.canRead then (st, Failure(NotSupported))
    else if st.position >= |st.data| then (st, Success([]))
    else
      var n := if count < |st.data| - st.position then count else |st.data| - st.position;
      (st.(position := st.position + n), Success(st.data[st.position..st.position + n]))
  }

  /** `ReadByte`: the byte at the position, or -1 at the end. */
  function ReadByteOp(st: StreamState): (r: (StreamState, Result<int>))
  {
    if !st.canRead then (st, Failure(NotSupported))
    else if st.position >= |st.data| then (st, Success(-1))
    else (st.(position := st.position + 1), Success(st.data[st.position] as int))
  }

  /** `Write`: the bytes overwrite the data from the position on, growing it
      (with zeros up to a position past the end) as needed. */
  function WriteOp(st: StreamState, bytes: seq<bv8>): (r: (StreamState, Option<Error>))
  {
    if !st.canWrite then (st, Some(NotSupported))
    else
      var pos := st.position;
      var prefix := if pos <= |st.data| then st.data[..pos] else st.data + Zeros(pos - |st.data|);
      var suffix := if pos + |bytes| < |st.data| then st.data[pos + |bytes|..] else [];
      (st.(data := prefix + bytes + suffix, position := pos + |bytes|), None)
  }

  /** `Seek`: the new position, counted from the origin; before the start
      is an `IOException`. */
  function SeekOp(st: StreamState, offset: int, origin: SeekOrigin): (r: (StreamState, Result<int>))
  {
    if !st.canSeek then (st, Failure(NotSupported))
    else
      var from := match origin case Begin => 0 case Current => st.position case End => |st.data|;
      if from + offset < 0 then (st, Failure(IOError))
      else (st.(position := from + offset), Success(from + offset))
  }

  /** `Position = value`. */
  function SetPositionOp(st: StreamState, value: int): (r: (StreamState, Option<Error>))
  {
    if value < 0 then (st, Some(ArgumentOutOfRange))
    else if !st.canSeek then (st, Some(NotSupported))
    else (st.(position := value), None)
  }

  /** `SetLength`: the data is cut or padded with zeros, and the position
      is kept inside it. */
  function SetLengthOp(st: StreamState, value: int): (r: (StreamState, Option<Error>))
  {
    if value < 0 then (st, Some(ArgumentOutOfRange))
    else if !st.canWrite || !st.canSeek then (st, Some(NotSupported))
    else
      var data := if value <= |st.data| then st.data[..value] else st.data + Zeros(value - |st.data|);
      (st.(data := data, position := if st.position <= value then st.position else value), None)
  }

  /** `EndRead`: the number of bytes the matching `BeginRead` read. */
  function EndReadOp(ar: AsyncResult): (r: Result<int>)
  {
    match ar
    case ReadDone(bytes) => Success(|bytes|)
    case WriteDone => Failure(Argument)
  }

  /** `EndWrite`: only the result of a `BeginWrite` is accepted. */
  function EndWriteOp(ar: AsyncResult): (r: Option<Error>)
  {
    if ar.WriteDone? then None else Some(Argument)
  }

  /** The stream being wrapped. */
  class Stream {
    var State: StreamState

    constructor (st: StreamState)
      ensures State == st
    {
      State := st;
    }

    method Read(count: int) returns (r: Result<seq<bv8>>)
      modifies this
      ensures (State, r) == ReadOp(old(State), count)
    {
      var next;
      next, r := ReadOp(State, count).0, ReadOp(State, count).1;
      State := next;
    }

    method ReadByte() returns (r: Result<int>)
      modifies this
      ensures (State, r) == ReadByteOp(old(State))
    {
      var next;
      next, r := ReadByteOp(State).0, ReadByteOp(State).1;
      State := next;
    }

    method Write(bytes: seq<bv8>) returns (error: Option<Error>)
      modifies this
      ensures (State, error) == WriteOp(old(State), bytes)
    {
      var next;
      next, error := WriteOp(State, bytes).0, WriteOp(State, bytes).1;
      State := next;
    }

    method Seek(offset: int, origin: SeekOrigin) returns (r: Result<int>)
      modifies this
      ensures (State, r) == SeekOp(old(State), offset, origin)
    {
      var next;
      next, r := SeekOp(State, offset, origin).0, SeekOp(State, offset, origin).1;
      State := next;
    }

    method SetPosition(value: int) returns (error: Option<Error>)
      modifies this
      ensures (State, error) == SetPositionOp(old(State), value)
    {
      var next;
      next, error := SetPositionOp(State, value).0, SetPositionOp(State, value).1;
      State := next;
    }

    method SetLength(value: int) returns (error: Option<Error>)
      modifies this
      ensures (State, error) == SetLengthOp(old(State), value)
    {
      var next;
      next, error := SetLengthOp(State, value).0, SetLengthOp(State, value).1;
      State := next;
    }
  }

  // ---------------------------------------------------------------------
  // The wrapper

  class WrappingStream {
    /** `streamBase`: `null` once disposed. */
    var streamBase: Stream?

    /** The constructor, for a stream that is not `null`. */
    constructor (stream: Stream)
      ensures streamBase == stream
    {
      streamBase := stream;
    }

    /** `ThrowIfDisposed`: `ObjectDisposedException` once the wrapped stream
        has been let go. */
    method ThrowIfDisposed() returns (error: Option<Error>)
      ensures error.Some? <==> streamBase == null
      ensures error.Some? ==> error.value == ObjectDisposed
    {
      error := if streamBase == null then Some(ObjectDisposed) else None;
    }

    /** `CanRead`, `CanSeek` and `CanWrite`: false once disposed, the wrapped
        stream's answer before. */
    function CanRead(): (b: bool)
      reads this, streamBase
      ensures b <==> streamBase != null && streamBase.State.canRead
    {
      streamBase != null && streamBase.State.canRead
    }

    function CanSeek(): (b: bool)
      reads this, streamBase
      ensures b <==> streamBase != null && streamBase.State.canSeek
    {
      streamBase != null && streamBase.State.canSeek
    }

    function CanWrite(): (b: bool)
      reads this, streamBase
      ensures b <==> streamBase != null && streamBase.State.canWrite
    {
      streamBase != null && streamBase.State.canWrite
    }

    /** `Length`. */
    method Length() returns (r: Result<int>)
      ensures streamBase == null ==> r == Failure(ObjectDisposed)
      ensures streamBase != null ==> r == Success(|streamBase.State.data|)
    {
      var disposed := ThrowIfDisposed();
      if disposed.Some? {
        return Failure(disposed.value);
      }
      r := Success(|streamBase.State.data|);
    }

    /** The `Position` getter. */
    method GetPosition() returns (r: Result<int>)
      ensures streamBase == null ==> r == Failure(ObjectDisposed)
      ensures streamBase != null ==> r == Success(streamBase.State.position)
    {
      var disposed := ThrowIfDisposed();
      if disposed.Some? {
        return Failure(disposed.value);
      }
      r := Success(streamBase.State.position);
    }

    /** The `Position` setter. */
    method SetPosition(value: int) returns (error: Option<Error>)
      modifies streamBase
      ensures streamBase == old(streamBase)
      ensures streamBase == null ==> error == Some(ObjectDisposed)
      ensures streamBase != null ==> (streamBase.State, error) == SetPositionOp(old(streamBase.State), value)
    {
      error := ThrowIfDisposed();
      if error.Some? {
        return;
      }
      error := streamBase.SetPosition(value);
    }

    method Read(count: int) returns (r: Result<seq<bv8>>)
      modifies streamBase
      ensures streamBase == old(streamBase)
      ensures streamBase == null ==> r == Failure(ObjectDisposed)
      ensures streamBase != null ==> (streamBase.State, r) == ReadOp(old(streamBase.State), count)
    {
      var disposed := ThrowIfDisposed();
      if disposed.Some? {
        return Failure(disposed.value);
      }
      r := streamBase.Read(count);
    }

    method ReadByte() returns (r: Result<int>)
      modifies streamBase
      ensures streamBase == old(streamBase)
      ensures streamBase == null ==> r == Failure(ObjectDisposed)
      ensures streamBase != null ==> (streamBase.State, r) == ReadByteOp(old(streamBase.State))
    {
      var disposed := ThrowIfDisposed();
      if disposed.Some? {
        return Failure(disposed.value);
      }
      r := streamBase.ReadByte();
    }

    method Write(bytes: seq<bv8>) returns (error: Option<Error>)
      modifies streamBase
      ensures streamBase == old(streamBase)
      ensures streamBase == null ==> error == Some(ObjectDisposed)
      ensures streamBase != null ==> (streamBase.State, error) == WriteOp(old(streamBase.State), bytes)
    {
      error := ThrowIfDisposed();
      if error.Some? {
        return;
      }
      error := streamBase.Write(bytes);
    }

    method WriteByte(value: bv8) returns (error: Option<Error>)
      modifies streamBase
      ensures streamBase == old(streamBase)
      ensures streamBase == null ==> error == Some(ObjectDisposed)
      ensures streamBase != null ==> (streamBase.State, error) == WriteOp(old(streamBase.State), [value])
    {
      error := Write([value]);
    }

    method Seek(offset: int, origin: SeekOrigin) returns (r: Result<int>)
      modifies streamBase
      ensures streamBase == old(streamBase)
      ensures streamBase == null ==> r == Failure(ObjectDisposed)
      ensures streamBase != null ==> (streamBase.State, r) == SeekOp(old(streamBase.State), offset, origin)
    {
      var disposed := ThrowIfDisposed();
      if disposed.Some? {
        return Failure(disposed.value);
      }
      r := streamBase.Seek(offset, origin);
    }

    method SetLength(value: int) returns (error: Option<Error>)
      modifies streamBase
      ensures streamBase == old(streamBase)
      ensures streamBase == null ==> error == Some(ObjectDisposed)
      ensures streamBase != null ==> (streamBase.State, error) == SetLengthOp(old(streamBase.State), value)
    {
      error := ThrowIfDisposed();
      if error.Some? {
        return;
      }
      error := streamBase.SetLength(value);
    }

    /** `Flush`: an in-memory stream has nothing to flush. */
    method Flush() returns (error: Option<Error>)
      ensures error == if streamBase == null then Some(ObjectDisposed) else None
    {
      error := ThrowIfDisposed();
    }

    /** `BeginRead`: the read is done at once and its bytes handed back. */
    method BeginRead(count: int) returns (r: Result<AsyncResult>)
      modifies streamBase
      ensures streamBase == old(streamBase)
      ensures streamBase == null ==> r == Failure(ObjectDisposed)
      ensures streamBase != null ==>
                var (next, read) := ReadOp(old(streamBase.State), count);
                && streamBase.State == next
                && r == (if read.Success? then Success(ReadDone(read.value)) else Failure(read.error))
    {
      var read := Read(count);
      r := if read.Success? then Success(ReadDone(read.value)) else Failure(read.error);
    }

    /** `BeginWrite`: the write is done at once. */
    method BeginWrite(bytes: seq<bv8>) returns (r: Result<AsyncResult>)
      modifies streamBase
      ensures streamBase == old(streamBase)
      ensures streamBase == null ==> r == Failure(ObjectDisposed)
      ensures streamBase != null ==>
                var (next, error) := WriteOp(old(streamBase.State), bytes);
                && streamBase.State == next
                && r == (if error.None? then Success(WriteDone) else Failure(error.value))
    {
      var error := Write(bytes);
      r := if error.None? then Success(WriteDone) else Failure(error.value);
    }

    method EndRead(ar: AsyncResult) returns (r: Result<int>)
      ensures r == if streamBase == null then Failure(ObjectDisposed) else EndReadOp(ar)
    {
      var disposed := ThrowIfDisposed();
      if disposed.Some? {
        return Failure(disposed.value);
      }
      r := EndReadOp(ar);
    }

    method EndWrite(ar: AsyncResult) returns (error: Option<Error>)
      ensures error == if streamBase == null then Some(ObjectDisposed) else EndWriteOp(ar)
    {
      error := ThrowIfDisposed();
      if error.Some? {
        return;
      }
      error := EndWriteOp(ar);
    }

    /** `Dispose(disposing)`: with `disposing` the reference to the wrapped
        stream is dropped; the wrapped stream itself is neither closed nor
        changed. `Dispose(false)` changes nothing. */
    method Dispose(disposing: bool)
      modifies this`streamBase
      ensures streamBase == if disposing then null else old(streamBase)
    {
      if disposing {
        streamBase := null;
      }
    }
  }

  /** `new WrappingStream(stream)`: `null` is refused with
      `ArgumentNullException`. */
  method NewWrappingStream(stream: Stream?) returns (r: Result<WrappingStream>)
    ensures stream == null <==> r.Failure?
    ensures r.Failure? ==> r.error == ArgumentNull
    ensures r.Success? ==> fresh(r.value) && r.value.streamBase == stream
  {
    if stream == null {
      return Failure(ArgumentNull);
    }
    var wrapper := new WrappingStream(stream);
    r := Success(wrapper);
  }
}
