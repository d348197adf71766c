/** The log writer and reader as they run. */
module LogFiles {
  import opened LogFormat
  import opened LogRoundTrip

  /** Only the place in the block counts, and the end of a block is the start of the next. */
  lemma EmitFrom(off: nat, p: nat, record: seq<Byte>)
    requires off <= BLOCK && off % BLOCK == p % BLOCK
    ensures Emit(off, record, true) == Emit(p % BLOCK, record, true)
  {
    hide Emit;
    EmitAtBlockEnd(record, true);
  }

  /** One round of the loop in AddRecord. */
  lemma EmitStep(off: nat, left: seq<Byte>, begin: bool)
    requires off <= BLOCK
    ensures var n := Portion(off, left);
            Emit(off, left, begin) == Fragment(off, left, begin)
              + if |left| == n then [] else Emit(HeaderAt(off) + HEADER + n, left[n..], false)
  {
    if |left| <= Available(off) {
      assert Fragment(off, left, begin) + [] == Fragment(off, left, begin);
    }
  }

  class Writer {
    /** The file written to. */
    var dest: seq<Byte>
    var blockOffset: nat

    ghost predicate Valid()
      reads this
    {
      blockOffset <= BLOCK && blockOffset % BLOCK == |dest| % BLOCK
    }

    /** A writer for a file that already holds `contents`. */
    constructor (contents: seq<Byte>)
      ensures Valid() && dest == contents
    {
      dest := contents;
      blockOffset := |contents| % BLOCK;
    }

    /** EmitPhysicalRecord. */
    method EmitPhysicalRecord(t: Byte, payload: seq<Byte>)
      requires blockOffset + HEADER + |payload| <= BLOCK
      modifies this
      ensures dest == old(dest) + Physical(t, payload)
      ensures blockOffset == old(blockOffset) + HEADER + |payload|
    {
      hide StoredCrc, Low, High;
      var header := StoredCrc(t, payload) + [Low(|payload|), High(|payload|), t];
      dest := dest + header;
      dest := dest + payload;
      blockOffset := blockOffset + HEADER + |payload|;
      assert Physical(t, payload) == header + payload;
      assert old(dest) + header + payload == old(dest) + (header + payload);
    }

    /** A block whose rest is too small for a header is filled up with zeros. */
    method FillTrailer()
      requires Valid()
      modifies this
      ensures Valid() && blockOffset == HeaderAt(old(blockOffset)) && blockOffset + HEADER <= BLOCK
      ensures dest == old(dest) + Zeros(Trailer(old(blockOffset)))
    {
      var leftover := BLOCK - blockOffset;
      if leftover < HEADER {
        dest := dest + Zeros(leftover);
        blockOffset := 0;
      } else {
        assert dest + Zeros(0) == dest;
      }
    }

    /** One round of the loop in AddRecord: the trailer if no header fits, then a fragment. */
    method EmitFragment(left: seq<Byte>, begin: bool) returns (n: nat)
      requires Valid()
      modifies this
      ensures Valid() && n == Portion(old(blockOffset), left)
      ensures blockOffset == HeaderAt(old(blockOffset)) + HEADER + n
      ensures dest == old(dest) + Fragment(old(blockOffset), left, begin)
    {
      hide Physical, Zeros, FragmentType, Fragment;
      FragmentParts(blockOffset, left, begin);
      ghost var was, pad := dest, Zeros(Trailer(blockOffset));
      FillTrailer();
      var avail := BLOCK - blockOffset - HEADER;
      n := if |left| < avail then |left| else avail;
      var t := FragmentType(begin, |left| == n);
      EmitPhysicalRecord(t, left[..n]);
      Regroup(was, pad, Physical(t, left[..n]));
    }

    /** AddRecord. */
    method AddRecord(record: seq<Byte>)
      requires Valid()
      modifies this
      ensures Valid()
      ensures dest == old(dest) + Emit(|old(dest)| % BLOCK, record, true)
    {
      hide Emit, Fragment;
      EmitFrom(blockOffset, |dest|, record);
      var left := record;
      var begin := true;
      ghost var goal := dest + Emit(blockOffset, record, true);
      while begin || |left| > 0
        invariant Valid()
        invariant if begin || |left| > 0 then dest + Emit(blockOffset, left, begin) == goal else dest == goal
        decreases |left|, if begin then 1 else 0, if Available(blockOffset) == 0 then 1 else 0
      {
        EmitStep(blockOffset, left, begin);
        ghost var was := dest;
        ghost var fragment := Fragment(blockOffset, left, begin);
        var length := EmitFragment(left, begin);
        left := left[length..];
        begin := false;
        Regroup(was, fragment, if |left| == 0 then [] else Emit(blockOffset, left, false));
      }
    }
  }

  lemma FragmentParts(off: nat, left: seq<Byte>, begin: bool)
    requires off <= BLOCK
    ensures Fragment(off, left, begin)
            == Zeros(Trailer(off)) + Physical(FragmentType(begin, |left| == Portion(off, left)), left[..Portion(off, left)])
    ensures Portion(off, left) == if |left| < BLOCK - HeaderAt(off) - HEADER then |left| else BLOCK - HeaderAt(off) - HEADER
  {
    hide Physical, Zeros, FragmentType;
  }

  lemma Regroup(a: seq<Byte>, b: seq<Byte>, c: seq<Byte>)
    ensures a + (b + c) == (a + b) + c && (c == [] ==> a + (b + c) == a + b)
  {
  }

  /** Writing records one after the other makes the file they stand for. */
  method WriteLog(rs: seq<seq<Byte>>) returns (w: Writer)
    ensures fresh(w) && w.Valid() && w.dest == Written(rs)
  {
    w := new Writer([]);
    assert rs[..0] == [];
    for i := 0 to |rs|
      invariant fresh(w) && w.Valid() && w.dest == Written(rs[..i])
    {
      WrittenStep(rs, i);
      w.AddRecord(rs[i]);
    }
    assert rs[..|rs|] == rs;
  }

  class Reader {
    const file: seq<Byte>
    /** What is left of the block read last, and whether that read came up short. */
    var buffer: seq<Byte>
    var eof: bool
    var endOfBufferOffset: nat
    var lastRecordOffset: nat
    /** How many corruptions the reporter was told of. */
    var reports: nat

    /** The position reading goes on from. */
    ghost function Position(): int
      reads this`buffer, this`endOfBufferOffset
    {
      endOfBufferOffset - |buffer|
    }

    ghost predicate Valid()
      reads this`buffer, this`eof, this`endOfBufferOffset
    {
      && |buffer| <= endOfBufferOffset <= |file|
      && buffer == file[Position()..endOfBufferOffset]
      && (eof ==> endOfBufferOffset == |file|)
      && (buffer == [] && !eof ==> endOfBufferOffset % BLOCK == 0)
      && (buffer != [] ==> endOfBufferOffset == BlockEnd(file, Position()) && (eof <==> !WholeBlock(file, Position())))
    }

    lemma PositionInFile()
      requires Valid()
      ensures 0 <= Position() <= |file|
    {
    }

    constructor (contents: seq<Byte>)
      ensures Valid() && Position() == 0 && file == contents && reports == 0
    {
      file := contents;
      buffer := [];
      eof := false;
      endOfBufferOffset := 0;
      lastRecordOffset := 0;
      reports := 0;
    }

    /** The next block of the file, short at its end. */
    method ReadBlock()
      requires Valid() && !eof && (buffer == [] || |buffer| < HEADER)
      modifies this`buffer, this`eof, this`endOfBufferOffset
      ensures Valid() && Position() == old(endOfBufferOffset)
      ensures Parse(file, Position()) == Parse(file, old(Position()))
      ensures endOfBufferOffset > old(endOfBufferOffset) || eof
    {
      var start := endOfBufferOffset;
      var n := if |file| - start < BLOCK then |file| - start else BLOCK;
      buffer := file[start..start + n];
      endOfBufferOffset := endOfBufferOffset + n;
      if n < BLOCK {
        eof := true;
      }
    }

    /** ReadPhysicalRecord: a type or one of the two codes. */
    method ReadPhysicalRecord() returns (t: Byte, fragment: seq<Byte>)
      requires Valid()
      modifies this`buffer, this`eof, this`endOfBufferOffset, this`reports
      ensures Valid() && Position() <= |file|
      ensures match Parse(file, old(Position()))
              case End => t == EOF_CODE && Position() == |file| && reports == old(reports)
              case Bad(next, reported) =>
                t == BAD_CODE && Position() == next && reports == old(reports) + if reported then 1 else 0
              case Fragmented(u, payload, next) =>
                t == u && fragment == payload && Position() == next && reports == old(reports)
    {
      hide CrcMatches, Length;
      fragment := [];
      while |buffer| < HEADER
        invariant Valid() && Parse(file, Position()) == Parse(file, old(Position())) && reports == old(reports)
        decreases |file| - endOfBufferOffset, if eof then 0 else 1
      {
        if eof {
          buffer := [];
          return EOF_CODE, [];
        }
        ReadBlock();
      }
      t, fragment := TakeFragment();
    }

    /** The rest of ReadPhysicalRecord, with a header in the buffer. */
    method TakeFragment() returns (t: Byte, fragment: seq<Byte>)
      requires Valid() && |buffer| >= HEADER
      modifies this`buffer, this`reports
      ensures Valid() && Position() <= |file|
      ensures match ParseHeader(file, old(Position()))
              case End => t == EOF_CODE && Position() == |file| && reports == old(reports)
              case Bad(next, reported) =>
                t == BAD_CODE && Position() == next && reports == old(reports) + if reported then 1 else 0
              case Fragmented(u, payload, next) =>
                t == u && fragment == payload && Position() == next && reports == old(reports)
    {
      hide CrcMatches, Length, ParseHeader, BlockEnd, WholeBlock;
      fragment := [];
      BufferParse(file, Position(), endOfBufferOffset, buffer, !eof);
      var length := Length(buffer[4], buffer[5]);
      t := buffer[6];
      if HEADER + length > |buffer| {
        Skip(|buffer|);
        if !eof {
          reports := reports + 1;
          return BAD_CODE, [];
        }
        return EOF_CODE, [];
      }
      if t == 0 && length == 0 {
        Skip(|buffer|);
        return BAD_CODE, [];
      }
      if !CrcMatches(buffer[..4], t, buffer[HEADER..HEADER + length]) {
        Skip(|buffer|);
        reports := reports + 1;
        return BAD_CODE, [];
      }
      fragment := buffer[HEADER..HEADER + length];
      Skip(HEADER + length);
    }

    /** Some bytes of the buffer are done with. */
    method Skip(n: nat)
      requires Valid() && buffer != [] && n <= |buffer|
      modifies this`buffer
      ensures Valid() && Position() == old(Position()) + n && buffer == old(buffer)[n..]
    {
      RestOfBlock(file, Position(), n, endOfBufferOffset);
      buffer := buffer[n..];
    }

    /** ReadRecord. */
    method ReadRecord() returns (ok: bool, record: seq<Byte>)
      requires Valid()
      modifies this
      ensures Valid()
      ensures var r := Read(file, old(Position()), [], false, 0, 0);
              && ok == r.ok && (ok ==> record == r.record && lastRecordOffset == r.offset)
              && Position() == r.next && reports == old(reports) + r.reports
    {
      hide Parse, ParseHeader, Reader.Valid, BlockEnd, WholeBlock;
      record := [];
      PositionInFile();
      var scratch: seq<Byte> := [];
      var inFragmented := false;
      var prospective: nat := 0;
      ghost var goal := Read(file, Position(), [], false, 0, 0);
      ghost var before := reports;
      while true
        invariant Valid() && 0 <= Position() <= |file|
        invariant reports >= before
        invariant Read(file, Position(), scratch, inFragmented, prospective, reports - before) == goal
        decreases |file| - Position()
      {
        ghost var q := Position();
        ParseAdvances(file, q);
        var t, fragment := ReadPhysicalRecord();
        PositionInFile();
        var offset := endOfBufferOffset - |buffer| - HEADER - |fragment|;
        if t == FULL {
          if inFragmented && scratch != [] {
            reports := reports + 1;
          }
          lastRecordOffset := offset;
          return true, fragment;
        } else if t == FIRST {
          if inFragmented && scratch != [] {
            reports := reports + 1;
          }
          prospective := offset;
          scratch := fragment;
          inFragmented := true;
        } else if t == MIDDLE {
          if !inFragmented {
            reports := reports + 1;
          } else {
            scratch := scratch + fragment;
          }
        } else if t == LAST {
          if !inFragmented {
            reports := reports + 1;
          } else {
            scratch := scratch + fragment;
            lastRecordOffset := prospective;
            return true, scratch;
          }
        } else if t == EOF_CODE {
          return false, [];
        } else if t == BAD_CODE {
          if inFragmented {
            reports := reports + 1;
          }
          inFragmented := false;
          scratch := [];
        } else {
          reports := reports + 1;
          inFragmented := false;
          scratch := [];
        }
      }
    }
  }

  /** ReadPhysicalRecord on the bytes in the buffer, which starts at position `q`. */
  function ParseBuffer(buffer: seq<Byte>, q: nat, whole: bool): Parsed
    requires |buffer| >= HEADER
  {
    var length := Length(buffer[4], buffer[5]);
    if HEADER + length > |buffer| then if whole then Bad(q + |buffer|, true) else End
    else if buffer[6] == 0 && length == 0 then Bad(q + |buffer|, false)
    else if !CrcMatches(buffer[..4], buffer[6], buffer[HEADER..HEADER + length]) then Bad(q + |buffer|, true)
    else Fragmented(buffer[6], buffer[HEADER..HEADER + length], q + HEADER + length)
  }

  lemma BufferParse(file: seq<Byte>, q: nat, end: nat, buffer: seq<Byte>, whole: bool)
    requires q + HEADER <= end && end == BlockEnd(file, q) && end <= |file| && buffer == file[q..end]
    requires whole <==> WholeBlock(file, q)
    ensures ParseHeader(file, q) == ParseBuffer(buffer, q, whole)
  {
    hide CrcMatches, Length, BlockEnd, WholeBlock;
    assert forall i | 0 <= i < |buffer| :: buffer[i] == file[q + i];
    var length := Length(buffer[4], buffer[5]);
    assert buffer[..4] == file[q..q + 4];
    if HEADER + length <= |buffer| {
      assert buffer[HEADER..HEADER + length] == file[q + HEADER..q + HEADER + length];
    }
  }

  lemma RestOfBlock(file: seq<Byte>, q: nat, n: nat, end: nat)
    requires q < end && end == BlockEnd(file, q) && end <= |file| && q + n <= end
    ensures q + n < end ==> BlockEnd(file, q + n) == end && (WholeBlock(file, q + n) <==> WholeBlock(file, q))
    ensures q + n == end && WholeBlock(file, q) ==> end % BLOCK == 0
    ensures file[q..end][n..] == file[q + n..end]
  {
  }

  /** A reader over a log cut off anywhere: the loop of RecoverLogFile and of VersionSet::Recover. */
  method ReadLog(file: seq<Byte>, ghost rs: seq<seq<Byte>>) returns (found: seq<Found>, reports: nat, ghost k: nat)
    requires file <= Written(rs)
    ensures WholeRecords(rs, |file|, k) && found == Entries(rs, 0, k) && reports == 0
  {
    hide Read, Written, Entries, WholeRecords;
    k := TornLogReadsBack(file, rs);
    var reader := new Reader(file);
    found := [];
    var ok, record := reader.ReadRecord();
    while ok
      invariant reader.Valid() && reader.file == file && reader.Position() <= |file|
      invariant ok ==> found + [Found(record, reader.lastRecordOffset)] + ReadAll(file, reader.Position()) == ReadAll(file, 0)
      invariant !ok ==> found == ReadAll(file, 0)
      invariant reader.reports + (if ok then Reports(file, reader.Position()) else 0) == Reports(file, 0)
      decreases |file| - reader.Position(), if ok then 1 else 0
    {
      found := found + [Found(record, reader.lastRecordOffset)];
      ReadAdvances(file, reader.Position(), [], false, 0, 0);
      ok, record := reader.ReadRecord();
    }
    reports := reader.reports;
  }

  /** Writing records and reading the file back, cut off after `n` bytes. */
  method WriteAndRead(rs: seq<seq<Byte>>, n: nat) returns (found: seq<Found>, ghost k: nat)
    ensures n <= |Written(rs)| ==> WholeRecords(rs, n, k) && found == Entries(rs, 0, k)
    ensures n > |Written(rs)| ==> k == |rs| && found == Entries(rs, 0, |rs|)
  {
    hide Read, Written, Entries, WholeRecords;
    var w := WriteLog(rs);
    var reports;
    if n <= |w.dest| {
      found, reports, k := ReadLog(w.dest[..n], rs);
    } else {
      found, reports, k := ReadLog(w.dest, rs);
      WholeFile(rs, k);
    }
  }

  lemma WholeFile(rs: seq<seq<Byte>>, k: nat)
    requires WholeRecords(rs, |Written(rs)|, k)
    ensures k == |rs|
  {
    if k < |rs| {
      WrittenPrefix(rs, k + 1);
    }
  }
}
