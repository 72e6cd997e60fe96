/** The builder's assembly of a run file and the installer's extraction of its payload, with
    reads and writes that may be short or fail. */
module NativeInstaller {
  import opened Optional
  import opened Bytes
  import opened Decimals
  import opened RunFile

  const COPY_BUFFER := 65536

  /** A file open for reading. */
  class Input {
    const bytes: Text
    var offset: nat

    constructor (bytes: Text)
      ensures this.bytes == bytes && offset == 0
    {
      this.bytes, offset := bytes, 0;
    }

    method Seek(start: nat)
      modifies this
      ensures offset == start
    {
      offset := start;
    }

    /** Delivers some of the next `want` bytes; nothing at the end or when it failed. */
    method Read(buffer: array<Byte>, want: nat) returns (count: nat, ghost failed: bool)
      requires want <= buffer.Length
      modifies this, buffer
      ensures count <= want && offset == old(offset) + count
      ensures count > 0 ==> offset <= |bytes| && buffer[..count] == bytes[old(offset)..offset]
      ensures failed <==> count == 0 && want > 0 && old(offset) < |bytes|
    {
      var delivered: int := *;
      var left := if offset < |bytes| then |bytes| - offset else 0;
      count := if 0 <= delivered <= want && delivered <= left then delivered else 0;
      for i := 0 to count
        invariant offset == old(offset)
        invariant forall k | 0 <= k < i :: buffer[k] == bytes[offset + k]
      {
        buffer[i] := bytes[offset + i];
      }
      failed := count == 0 && want > 0 && offset < |bytes|;
      offset := offset + count;
    }
  }

  /** A file open for writing at its end. */
  class Output {
    var bytes: Text

    constructor ()
      ensures bytes == []
    {
      bytes := [];
    }

    /** Takes some of the offered bytes, or none when it failed. */
    method Write(buffer: array<Byte>, from: nat, length: nat)
      returns (count: nat, ghost failed: bool)
      requires from + length <= buffer.Length
      modifies this
      ensures count <= length && bytes == old(bytes) + buffer[from..from + count]
      ensures failed <==> count == 0 && length > 0
    {
      var taken: int := *;
      count := if 0 <= taken <= length then taken else 0;
      bytes := bytes + buffer[from..from + count];
      failed := count == 0 && length > 0;
    }
  }

  // ----- Reading the footer

  /** Converts decimal digits, refusing what does not fit sixty-four bits. */
  method ParseSize(digits: Text) returns (size: Option<nat>)
    requires AllDigits(digits)
    ensures size == if Value(digits) < UINT64 then Some(Value(digits)) else None
  {
    var value := ReadDigits(digits);
    return if value < UINT64 then Some(value) else None;
  }

  /** Finds the payload of the run file, or rejects the file; a read may fail. */
  method PayloadBounds(file: Text) returns (bounds: Option<(int, nat)>, ghost failed: bool)
    requires |file| <= OFF_T_MAX
    ensures bounds.Some? ==> bounds == Bounds(file)
    ensures bounds.None? ==> failed || Bounds(file).None?
  {
    var readable: bool := *;
    failed := !readable;
    if !readable || |file| < FOOTER_SIZE {
      return None, failed;
    }
    var footer := file[|file| - FOOTER_SIZE..];
    if footer[..|FOOTER_PREFIX|] != FOOTER_PREFIX || footer[FOOTER_SIZE - 1] != '\n' {
      return None, false;
    }
    var digits := footer[|FOOTER_PREFIX|..FOOTER_SIZE - 1];
    for i := 0 to |digits|
      invariant AllDigits(digits[..i])
    {
      if digits[i] < '0' || digits[i] > '9' {
        return None, false;
      }
    }
    assert digits[..|digits|] == digits;
    var size := ParseSize(digits);
    if size.None? || size.value == 0 {
      return None, false;
    }
    if |file| < (size.value + FOOTER_SIZE) % UINT64 {
      return None, false;
    }
    var start := |file| - FOOTER_SIZE - AsOffset(size.value);
    return if start > 0 then Some((start, size.value)) else None, false;
  }

  // ----- Copying

  /** Writes the whole chunk, in as many pieces as it takes. */
  method WriteChunk(output: Output, buffer: array<Byte>, count: nat)
    returns (ok: bool, ghost failed: bool)
    requires count <= buffer.Length
    modifies output
    ensures ok == !failed
    ensures ok ==> output.bytes == old(output.bytes) + buffer[..count]
  {
    var written := 0;
    while written < count
      invariant written <= count
      invariant output.bytes == old(output.bytes) + buffer[..written]
    {
      var n;
      n, failed := output.Write(buffer, written, count - written);
      if n == 0 {
        return false, failed;
      }
      assert buffer[..written + n] == buffer[..written] + buffer[written..written + n];
      written := written + n;
    }
    return true, false;
  }

  /** Extracts the payload. Whatever the pattern of short reads and writes, the output is the
      announced range of the file; the only ways not to get it are a failed system call, a
      file without bounds, and a size whose check wrapped around. */
  method CopyPayload(file: Text) returns (payload: Option<Text>, ghost failed: bool)
    requires |file| <= OFF_T_MAX
    ensures payload.Some? ==> !failed
    ensures payload.None? ==>
      failed || Bounds(file).None? || !Unwrapped(Bounds(file).value.1)
    ensures payload.Some? ==>
      && Bounds(file).Some?
      && var (start, size) := Bounds(file).value;
         start + size <= |file| && Unwrapped(size) && payload.value == file[start..start + size]
  {
    var bounds;
    bounds, failed := PayloadBounds(file);
    if bounds.None? {
      return None, failed;
    }
    WrappedRangeIsOutside(file);
    var (start, size) := bounds.value;
    var input := new Input(file);
    var output := new Output();
    var buffer := new Byte[COPY_BUFFER];
    input.Seek(start);
    var remaining := size;
    while remaining > 0
      invariant fresh(input) && fresh(output) && fresh(buffer) && buffer.Length == COPY_BUFFER
      invariant input.bytes == file && input.offset == start + (size - remaining)
      invariant 0 <= remaining <= size && (remaining < size ==> input.offset <= |file|)
      invariant remaining < size ==> output.bytes == file[start..input.offset]
      invariant remaining == size ==> output.bytes == []
    {
      var want := if remaining > COPY_BUFFER then COPY_BUFFER else remaining;
      ghost var before := input.offset;
      var count;
      count, failed := input.Read(buffer, want);
      if count == 0 {
        return None, failed;
      }
      var ok;
      ok, failed := WriteChunk(output, buffer, count);
      if !ok {
        return None, failed;
      }
      assert file[start..input.offset] == file[start..before] + file[before..input.offset];
      remaining := remaining - count;
    }
    return Some(output.bytes), false;
  }

  // ----- Assembling

  /** Appends a whole file, chunk by chunk; the stream fills every chunk but the last. */
  method AppendFile(output: Output, source: Text) returns (ok: bool, ghost failed: bool)
    modifies output
    ensures ok == !failed
    ensures ok ==> output.bytes == old(output.bytes) + source
  {
    var input := new Input(source);
    var buffer := new Byte[COPY_BUFFER];
    var ended := false;
    while !ended
      invariant fresh(input) && fresh(buffer) && buffer.Length == COPY_BUFFER
      invariant input.bytes == source && input.offset <= |source|
      invariant output.bytes == old(output.bytes) + source[..input.offset]
      invariant ended ==> input.offset == |source|
      decreases !ended, |source| - input.offset
    {
      ghost var before := input.offset;
      var count;
      count, failed := input.Read(buffer, COPY_BUFFER);
      ok, failed := WriteChunk(output, buffer, count);
      if !ok {
        return false, failed;
      }
      assert source[..input.offset] == source[..before] + source[before..input.offset];
      if count < COPY_BUFFER {
        if input.offset != |source| {
          return false, true;  // the stream stopped early without reaching the end
        }
        ended := true;
      }
    }
    return true, false;
  }

  /** Writes installer, payload and footer; the payload's size comes from its metadata. */
  method WriteRunFile(installer: Text, payload: Text)
    returns (file: Option<Text>, ghost failed: bool)
    requires |payload| < UINT64
    ensures file.Some? ==> payload != [] && file.value == RunFileOf(installer, payload)
    ensures file.None? ==> failed || payload == []
  {
    var output := new Output();
    if payload == [] {
      return None, false;
    }
    var ok;
    ok, failed := AppendFile(output, installer);
    if ok {
      ok, failed := AppendFile(output, payload);
    }
    if !ok {
      return None, failed;
    }
    assert output.bytes == installer + payload;
    var flushed: bool := *;
    return if flushed then Some(output.bytes + Footer(|payload|)) else None, !flushed;
  }

  /** What the builder packs is what the installer unpacks, unless a system call fails. */
  method BuildThenExtract(installer: Text, payload: Text)
    returns (extracted: Option<Text>, ghost failed: bool)
    requires installer != [] && payload != []
    requires |installer| + |payload| + FOOTER_SIZE <= OFF_T_MAX
    ensures extracted.Some? ==> extracted.value == payload
    ensures extracted.None? ==> failed
  {
    var file;
    file, failed := WriteRunFile(installer, payload);
    extracted := None;
    if file.Some? {
      PayloadIsFound(installer, payload);
      extracted, failed := CopyPayload(file.value);
    }
  }
}
