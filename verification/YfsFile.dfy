// Reading and writing a range of a file held as one string.

module YfsFile {
  import opened DiskLayout

  function Min(a: nat, b: nat): nat {
    if a < b then a else b
  }

  function Max(a: nat, b: nat): nat {
    if a < b then b else a
  }

  // file_str.substr(off, size), or nothing behind the end
  function ReadRange(file: seq<Byte>, off: nat, size: nat): seq<Byte> {
    if off >= |file| then [] else file[off..Min(off + size, |file|)]
  }

  // file_str.replace(off, size, data) within the file; zeros up to off and then the data
  // otherwise
  function WriteRange(file: seq<Byte>, off: nat, data: seq<Byte>): seq<Byte> {
    if off < |file| then file[..off] + data + file[Min(off + |data|, |file|)..]
    else file + Zeros(off - |file|) + data
  }

  function ByteAt(file: seq<Byte>, i: nat): Byte {
    if i < |file| then file[i] else 0
  }

  /** Both branches of write: the range holds the data, a gap zeros, all other bytes stay,
      and the file ends where the longer of the two does. */
  lemma WriteMeans(file: seq<Byte>, off: nat, data: seq<Byte>)
    ensures |WriteRange(file, off, data)| == Max(|file|, off + |data|)
    ensures forall i :: 0 <= i < |WriteRange(file, off, data)| ==>
              WriteRange(file, off, data)[i] == if off <= i < off + |data| then data[i - off] else ByteAt(file, i)
  {
  }

  lemma ReadMeans(file: seq<Byte>, off: nat, size: nat)
    ensures var r := ReadRange(file, off, size);
            && |r| == (if off >= |file| then 0 else Min(size, |file| - off))
            && forall i :: 0 <= i < |r| ==> r[i] == file[off + i]
  {
  }

  /** A read of the range just written returns what was written. */
  lemma ReadAfterWrite(file: seq<Byte>, off: nat, data: seq<Byte>)
    ensures ReadRange(WriteRange(file, off, data), off, |data|) == data
  {
    var file' := WriteRange(file, off, data);
    WriteMeans(file, off, data);
    if data != [] {
      assert file'[off..off + |data|] == data;
    }
  }

  /** A read of a range that was not written returns what it did before, with zeros where the
      file has grown. */
  lemma ReadElsewhere(file: seq<Byte>, off: nat, data: seq<Byte>, at: nat, size: nat)
    requires at + size <= off || off + |data| <= at
    ensures var r, r' := ReadRange(file, at, size), ReadRange(WriteRange(file, off, data), at, size);
            && |r| <= |r'| && r'[..|r|] == r && forall i :: |r| <= i < |r'| ==> r'[i] == 0
  {
    WriteMeans(file, off, data);
  }

  predicate Within(i: nat, off: nat, size: nat) {
    off <= i < off + size
  }

  // Where both write, they write the same.
  ghost predicate Agree(off1: nat, d1: seq<Byte>, off2: nat, d2: seq<Byte>) {
    forall i: nat :: Within(i, off1, |d1|) && Within(i, off2, |d2|) ==> d1[i - off1] == d2[i - off2]
  }

  /** Two writes commute exactly if they agree where they overlap; so those to disjoint
      ranges always do. */
  lemma WritesCommute(file: seq<Byte>, off1: nat, d1: seq<Byte>, off2: nat, d2: seq<Byte>)
    ensures WriteRange(WriteRange(file, off1, d1), off2, d2) == WriteRange(WriteRange(file, off2, d2), off1, d1)
            <==> Agree(off1, d1, off2, d2)
  {
    var a, b := WriteRange(file, off1, d1), WriteRange(file, off2, d2);
    WriteMeans(file, off1, d1);
    WriteMeans(file, off2, d2);
    WriteMeans(a, off2, d2);
    WriteMeans(b, off1, d1);
    var ab, ba := WriteRange(a, off2, d2), WriteRange(b, off1, d1);
    if Agree(off1, d1, off2, d2) {
      forall i: nat | i < |ab| ensures ab[i] == ba[i] {
        assert Within(i, off1, |d1|) && Within(i, off2, |d2|) ==> d1[i - off1] == d2[i - off2];
      }
    } else {
      var i: nat :| Within(i, off1, |d1|) && Within(i, off2, |d2|) && d1[i - off1] != d2[i - off2];
      assert ab[i] != ba[i];
    }
  }

  /** The later of two writes to one range wins. */
  lemma LastWriteWins(file: seq<Byte>, off: nat, d1: seq<Byte>, d2: seq<Byte>)
    requires |d1| <= |d2|
    ensures WriteRange(WriteRange(file, off, d1), off, d2) == WriteRange(file, off, d2)
  {
    var a := WriteRange(file, off, d1);
    WriteMeans(file, off, d1);
    WriteMeans(file, off, d2);
    WriteMeans(a, off, d2);
    forall i | 0 <= i < |WriteRange(a, off, d2)| ensures WriteRange(a, off, d2)[i] == WriteRange(file, off, d2)[i] { }
  }

  // ---- setattr ----

  datatype Resized = Thrown | Same | New(file: seq<Byte>)

  // What setattr does with the string, given the size that getattr reports. Thrown: erase
  // is called with a position behind the end.
  function Resize(file: seq<Byte>, attrSize: nat, size: nat): Resized {
    if attrSize == size then Same
    else if attrSize > size then
      if size > |file| then Thrown else New(file[..size] + file[Min(size + attrSize, |file|)..])
    else New(file + Zeros(size - attrSize))
  }

  function ResizedFile(file: seq<Byte>, attrSize: nat, size: nat): seq<Byte> {
    match Resize(file, attrSize, size)
    case New(file') => file'
    case _ => file
  }

  // The reported size is good enough for that request.
  predicate SizeKnown(file: seq<Byte>, attrSize: nat, size: nat) {
    if attrSize > size then size <= |file| <= size + attrSize else attrSize == |file|
  }

  /** What setattr does for every reported size: nothing if it is the requested one; an erase
      of so many bytes from the requested size on if it is larger, which throws exactly if the
      file ends before that; and otherwise as many zeros at the end as are missing to it. */
  lemma ResizeMeans(file: seq<Byte>, attrSize: nat, size: nat)
    ensures Resize(file, attrSize, size) == Thrown <==> attrSize > size > |file|
    ensures Resize(file, attrSize, size) == Same <==> attrSize == size
    ensures attrSize > size && size <= |file| ==>
              var r := ResizedFile(file, attrSize, size);
              && |r| == |file| - Min(attrSize, |file| - size)
              && forall i :: 0 <= i < |r| ==> r[i] == if i < size then file[i] else file[i + attrSize]
    ensures attrSize < size ==>
              var r := ResizedFile(file, attrSize, size);
              && |r| == |file| + (size - attrSize)
              && forall i :: 0 <= i < |r| ==> r[i] == ByteAt(file, i)
    ensures attrSize == size || attrSize > size > |file| ==> ResizedFile(file, attrSize, size) == file
  {
  }

  /** The file gets the requested size exactly if the reported size is good enough; then the
      bytes stay as far as there are any, and zeros follow. */
  lemma ResizeFits(file: seq<Byte>, attrSize: nat, size: nat)
    ensures Resize(file, attrSize, size) != Thrown && |ResizedFile(file, attrSize, size)| == size
            <==> SizeKnown(file, attrSize, size)
    ensures SizeKnown(file, attrSize, size) ==>
              forall i :: 0 <= i < size ==> ResizedFile(file, attrSize, size)[i] == ByteAt(file, i)
    ensures SizeKnown(file, |file|, size)
  {
    ResizeMeans(file, attrSize, size);
  }

  /** The string that setattr puts back. */
  method Cut(file: seq<Byte>, attrSize: nat, size: nat) returns (r: seq<Byte>, thrown: bool)
    requires attrSize != size
    ensures thrown <==> Resize(file, attrSize, size) == Thrown
    ensures r == ResizedFile(file, attrSize, size) && |r| <= |file| + size
  {
    r, thrown := file, false;
    if attrSize > size {
      if size > |file| {
        thrown := true;
      } else {
        r := file[..size] + file[Min(size + attrSize, |file|)..];
      }
    } else {
      var fill := Fill(size - attrSize);
      r := file + fill;
    }
  }

  /** The loop that fills a gap. */
  method Fill(length: nat) returns (s: seq<Byte>)
    ensures s == Zeros(length)
  {
    var fill := new Byte[length];
    var i := 0;
    while i < length
      invariant 0 <= i <= length && forall j :: 0 <= j < i ==> fill[j] == 0
    {
      fill[i] := 0;
      i := i + 1;
    }
    s := fill[..];
  }

  /** The string that write puts back. */
  method Splice(file: seq<Byte>, off: nat, data: seq<Byte>) returns (r: seq<Byte>)
    ensures r == WriteRange(file, off, data)
  {
    if off < |file| {
      r := file[..off] + data + file[Min(off + |data|, |file|)..];
    } else {
      var fill := Fill(off - |file|);
      r := file + fill + data;
    }
  }
}
