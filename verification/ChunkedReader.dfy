/**
The chunked file reader: it grows a buffer by one chunk after every successful read, and reads the
next chunk behind what it has. The kernel may return fewer bytes than asked for, or an error.
*/
module ChunkedReader {
  import opened Wrappers

  const ENOMEM := 12
  const EBADF := 9

  type Positive = x: int | x > 0 witness 1

  /** What a read does: it fails, or it returns at most so many bytes although more are left. */
  datatype Read = Err(errno: Positive) | Short(bytes: Positive)

  /** What opening the file returns. The kernel returns an error pointer for a failure, and never null,
      which is all that the source looks for. */
  datatype Handle = NullPointer | ErrorPointer | File

  /** A file that does not change, what opening it returns, and the outcome of each read and allocation. */
  datatype World = World(data: seq<Byte>, handle: Handle, onRead: nat -> Read, onAlloc: nat -> bool)

  function Min(a: int, b: int): int {
    if a <= b then a else b
  }

  /** What read number i returns for `count` bytes at `pos`: 0 only for an empty request or at the
      end of the file. */
  function ReadResult(w: World, i: nat, pos: nat, count: nat): int
    requires pos <= |w.data|
  {
    match w.onRead(i)
    case Err(errno) => -(errno as int)
    case Short(bytes) => Min(Min(bytes, count), |w.data| - pos)
  }

  /** The kernel's read into the buffer at `pos`. */
  method KernelRead(w: World, i: nat, buf: array<Byte>, pos: nat, count: nat) returns (r: int)
    requires pos <= |w.data| && pos + count <= buf.Length
    modifies buf
    ensures r == ReadResult(w, i, pos, count)
    ensures buf[..pos] == old(buf[..pos])
    ensures r > 0 ==> r <= count && pos + r <= |w.data| && buf[pos..pos + r] == w.data[pos..pos + r]
  {
    r := ReadResult(w, i, pos, count);
    var k := 0;
    while k < r
      invariant 0 <= k && (if r < 0 then k == 0 else k <= r)
      invariant buf[..pos] == old(buf[..pos])
      invariant r > 0 ==> buf[pos..pos + k] == w.data[pos..pos + k]
    {
      buf[pos + k] := w.data[pos + k];
      k := k + 1;
    }
  }

  /** Grows a buffer; the new bytes are unspecified in the source, and zero here. */
  method Krealloc(buf: array<Byte>, size: nat) returns (r: array<Byte>)
    requires buf.Length <= size
    ensures fresh(r) && r.Length == size && r[..buf.Length] == buf[..]
  {
    var content := buf[..];
    r := new Byte[size](i => if 0 <= i < |content| then content[i] else 0);
  }

  /** The call fails for a cause: the file does not open, the first allocation fails, or the last of the
      reads that were made fails or the buffer cannot grow after it. */
  predicate Cause(w: World, chunk: int, made: nat, ccode: int) {
    || (w.handle.NullPointer? && made == 0 && ccode == -EBADF)
    || (w.handle.File? && made == 0 && ccode == -ENOMEM && (chunk < 0 || !w.onAlloc(0)))
    || (w.handle.File? && made > 0 && w.onRead(made - 1).Err? && ccode == -(w.onRead(made - 1).errno as int))
    || (w.handle.File? && made > 0 && w.onRead(made - 1).Short? && !w.onAlloc(made) && ccode == -ENOMEM)
  }

  /** Read number i succeeded, and the buffer could grow after it. */
  predicate Grew(w: World, i: nat) {
    w.onRead(i).Short? && w.onAlloc(i + 1)
  }

  /** `chunk` is a signed module parameter. An allocation of a negative size fails. `made` counts
      the reads that were made; `misused` says that an error pointer was read or closed as if it
      were a file. */
  method VfsReadFile(w: World, chunk: int, maxCount: nat)
    returns (ccode: int, buf: array?<Byte>, pos: nat, made: nat, misused: bool)
    ensures misused <==> w.handle.ErrorPointer?
    ensures pos <= |w.data|
    ensures ccode >= 0 && !misused ==> buf != null && pos <= buf.Length && buf[..pos] == w.data[..pos]
    ensures !misused ==> (ccode < 0 <==> buf == null)
    ensures ccode < 0 && !misused ==> Cause(w, chunk, made, ccode)
    ensures forall i :: 0 <= i < made - 1 ==> Grew(w, i)
    ensures ccode >= 0 && !misused ==>
      made > 0 && w.onRead(made - 1).Short? && (ccode > 0 ==> Grew(w, made - 1))
    ensures ccode >= 0 && !misused ==> chunk >= 0 && pos <= (if maxCount > chunk then maxCount else chunk)
    ensures ccode > 0 && !misused ==> buf.Length > maxCount && pos + chunk <= buf.Length
    ensures ccode == 0 && !misused ==> if chunk == 0 then pos == 0 else pos == |w.data|
  {
    pos, made, misused := 0, 0, w.handle.ErrorPointer?;
    if w.handle.NullPointer? {
      return -EBADF, null, pos, made, misused;
    }
    if chunk < 0 || !w.onAlloc(0) {
      return -ENOMEM, null, pos, made, misused;
    }
    if misused {
      return 0, null, pos, made, misused;
    }
    var b := new Byte[chunk](_ => 0);
    var capacity: int := chunk;
    ccode := 1;
    while ccode > 0 && (made == 0 || capacity <= maxCount)
      invariant ccode >= 0 && pos <= |w.data| && pos + chunk <= capacity == b.Length
      invariant forall i :: 0 <= i < made - 1 ==> Grew(w, i)
      invariant made > 0 ==> w.onRead(made - 1).Short? && (ccode > 0 ==> Grew(w, made - 1))
      invariant fresh(b) && b[..pos] == w.data[..pos]
      invariant made == 0 ==> ccode == 1 && pos == 0 && capacity == chunk
      invariant made > 0 && ccode > 0 ==> chunk > 0 && capacity > chunk
      invariant pos <= (if maxCount > chunk then maxCount else chunk)
      invariant ccode == 0 ==> if chunk == 0 then pos == 0 else pos == |w.data|
      decreases ccode > 0, |w.data| - pos
    {
      var r := KernelRead(w, made, b, pos, chunk);
      made := made + 1;
      if r < 0 {
        return r, null, pos, made, misused;
      }
      ccode := r;
      assert b[..pos + r] == w.data[..pos + r];
      pos := pos + r;
      if r > 0 {
        if !w.onAlloc(made) {
          return -ENOMEM, null, pos, made, misused;
        }
        var before := b[..];
        b := Krealloc(b, capacity + chunk);
        assert b[..pos] == before[..pos];
        capacity := capacity + chunk;
      }
    }
    buf := b;
  }
}
