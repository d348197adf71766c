/** VersionEdit as a record of the manifest. */
module EditFormat {
  import opened Coding
  import Version

  datatype Maybe<T> = Absent | Present(value: T)

  /** A new file: its level, and the bytes of its least and greatest internal key. */
  datatype NewFile = NewFile(level: nat, number: nat, size: nat, smallest: seq<Byte>, largest: seq<Byte>)

  datatype Pointer = Pointer(level: nat, key: seq<Byte>)

  datatype Deleted = Deleted(level: nat, number: nat)

  /** The deleted files are a set, kept as the increasing list it is traversed in. */
  datatype Edit = Edit(
    comparator: Maybe<seq<Byte>>,
    logNumber: Maybe<nat>,
    prevLogNumber: Maybe<nat>,
    nextFileNumber: Maybe<nat>,
    lastSequence: Maybe<nat>,
    compactPointers: seq<Pointer>,
    deletedFiles: seq<Deleted>,
    newFiles: seq<NewFile>
  )

  /** VersionEdit::Clear.  The compaction pointers are not cleared. */
  function Clear(e: Edit): Edit {
    Edit(Absent, Absent, Absent, Absent, Absent, e.compactPointers, [], [])
  }

  /** A VersionEdit just constructed. */
  const FRESH: Edit := Edit(Absent, Absent, Absent, Absent, Absent, [], [], [])

  const COMPARATOR: nat := 1
  const LOG_NUMBER: nat := 2
  const NEXT_FILE_NUMBER: nat := 3
  const LAST_SEQUENCE: nat := 4
  const COMPACT_POINTER: nat := 5
  const DELETED_FILE: nat := 6
  const NEW_FILE: nat := 7
  const PREV_LOG_NUMBER: nat := 9

  // ---- EncodeTo

  function PutNumber(tag: nat, v: Maybe<nat>): seq<Byte> {
    if v.Absent? then [] else PutVarint(tag) + PutVarint(v.value)
  }

  function PutComparator(v: Maybe<seq<Byte>>): seq<Byte> {
    if v.Absent? then [] else PutVarint(COMPARATOR) + PutSlice(v.value)
  }

  function PutPointer(p: Pointer): seq<Byte> {
    PutVarint(COMPACT_POINTER) + PutVarint(p.level) + PutSlice(p.key)
  }

  function PutDeleted(d: Deleted): seq<Byte> {
    PutVarint(DELETED_FILE) + PutVarint(d.level) + PutVarint(d.number)
  }

  function PutNewFile(f: NewFile): seq<Byte> {
    PutVarint(NEW_FILE) + PutVarint(f.level) + PutVarint(f.number) + PutVarint(f.size) + PutSlice(f.smallest) + PutSlice(f.largest)
  }

  function PutPointers(ps: seq<Pointer>): seq<Byte> {
    if ps == [] then [] else PutPointer(ps[0]) + PutPointers(ps[1..])
  }

  function PutDeletedFiles(ds: seq<Deleted>): seq<Byte> {
    if ds == [] then [] else PutDeleted(ds[0]) + PutDeletedFiles(ds[1..])
  }

  function PutNewFiles(fs: seq<NewFile>): seq<Byte> {
    if fs == [] then [] else PutNewFile(fs[0]) + PutNewFiles(fs[1..])
  }

  function Encode(e: Edit): seq<Byte> {
    PutComparator(e.comparator) + (PutNumber(LOG_NUMBER, e.logNumber) + (PutNumber(PREV_LOG_NUMBER, e.prevLogNumber)
    + (PutNumber(NEXT_FILE_NUMBER, e.nextFileNumber) + (PutNumber(LAST_SEQUENCE, e.lastSequence)
    + (PutPointers(e.compactPointers) + (PutDeletedFiles(e.deletedFiles) + PutNewFiles(e.newFiles)))))))
  }

  // ---- DecodeFrom

  /** Insertion into the set of deleted files. */
  function InsertDeleted(ds: seq<Deleted>, d: Deleted): seq<Deleted> {
    if ds == [] then [d]
    else if DeletedBefore(d, ds[0]) then [d] + ds
    else if d == ds[0] then ds
    else [ds[0]] + InsertDeleted(ds[1..], d)
  }

  predicate DeletedBefore(a: Deleted, b: Deleted) {
    a.level < b.level || (a.level == b.level && a.number < b.number)
  }

  ghost predicate DeletedInOrder(ds: seq<Deleted>) {
    forall i, j | 0 <= i < j < |ds| :: DeletedBefore(ds[i], ds[j])
  }

  function GetLevel(s: seq<Byte>): Parse<nat> {
    match GetVarint32(s)
    case Parsed(v, rest) => if v < Version.NUM_LEVELS then Parsed(v, rest) else Failed
    case Failed => Failed
  }

  function GetPointer(s: seq<Byte>): Parse<Pointer> {
    match GetLevel(s)
    case Failed => Failed
    case Parsed(level, s1) =>
      match GetSlice(s1)
      case Failed => Failed
      case Parsed(key, s2) => Parsed(Pointer(level, key), s2)
  }

  function GetDeleted(s: seq<Byte>): Parse<Deleted> {
    match GetLevel(s)
    case Failed => Failed
    case Parsed(level, s1) =>
      match GetVarint64(s1)
      case Failed => Failed
      case Parsed(number, s2) => Parsed(Deleted(level, number), s2)
  }

  function GetNewFile(s: seq<Byte>): Parse<NewFile> {
    match GetLevel(s)
    case Failed => Failed
    case Parsed(level, s1) =>
      match GetVarint64(s1)
      case Failed => Failed
      case Parsed(number, s2) =>
        match GetVarint64(s2)
        case Failed => Failed
        case Parsed(size, s3) =>
          match GetSlice(s3)
          case Failed => Failed
          case Parsed(smallest, s4) =>
            match GetSlice(s4)
            case Failed => Failed
            case Parsed(largest, s5) => Parsed(NewFile(level, number, size, smallest, largest), s5)
  }

  /** The field after a tag, and the edit with it set. */
  function GetField(e: Edit, tag: nat, s: seq<Byte>): Parse<Edit> {
    if tag == COMPARATOR then
      match GetSlice(s) case Failed => Failed case Parsed(v, rest) => Parsed(e.(comparator := Present(v)), rest)
    else if tag == LOG_NUMBER then
      match GetVarint64(s) case Failed => Failed case Parsed(v, rest) => Parsed(e.(logNumber := Present(v)), rest)
    else if tag == PREV_LOG_NUMBER then
      match GetVarint64(s) case Failed => Failed case Parsed(v, rest) => Parsed(e.(prevLogNumber := Present(v)), rest)
    else if tag == NEXT_FILE_NUMBER then
      match GetVarint64(s) case Failed => Failed case Parsed(v, rest) => Parsed(e.(nextFileNumber := Present(v)), rest)
    else if tag == LAST_SEQUENCE then
      match GetVarint64(s) case Failed => Failed case Parsed(v, rest) => Parsed(e.(lastSequence := Present(v)), rest)
    else if tag == COMPACT_POINTER then
      match GetPointer(s)
      case Failed => Failed
      case Parsed(v, rest) => Parsed(e.(compactPointers := e.compactPointers + [v]), rest)
    else if tag == DELETED_FILE then
      match GetDeleted(s)
      case Failed => Failed
      case Parsed(v, rest) => Parsed(e.(deletedFiles := InsertDeleted(e.deletedFiles, v)), rest)
    else if tag == NEW_FILE then
      match GetNewFile(s)
      case Failed => Failed
      case Parsed(v, rest) => Parsed(e.(newFiles := e.newFiles + [v]), rest)
    else Failed
  }

  lemma FieldConsumes(e: Edit, tag: nat, s: seq<Byte>)
    ensures GetField(e, tag, s).Parsed? ==> |GetField(e, tag, s).rest| <= |s|
  {
    hide GetBits;
    forall t: seq<Byte>
      ensures GetVarint32(t).Parsed? ==> |GetVarint32(t).rest| < |t|
      ensures GetVarint64(t).Parsed? ==> |GetVarint64(t).rest| < |t|
    {
      BitsConsume(t, 5);
      BitsConsume(t, 10);
    }
  }

  /** The loop of DecodeFrom: fields are read while a tag can be read; input left over then is an error. */
  function DecodeFields(e: Edit, s: seq<Byte>): Parse<Edit>
    decreases |s|
  {
    BitsConsume(s, 5);
    match GetVarint32(s)
    case Failed => if s == [] then Parsed(e, []) else Failed
    case Parsed(tag, s1) =>
      FieldConsumes(e, tag, s1);
      match GetField(e, tag, s1)
      case Failed => Failed
      case Parsed(e', rest) => DecodeFields(e', rest)
  }

  /** DecodeFrom, into an object that may have been used before. */
  function Decode(into: Edit, s: seq<Byte>): Parse<Edit> {
    DecodeFields(Clear(into), s)
  }

  /** The fields that were set before decoding ended, with an error or without. */
  function FieldsSet(e: Edit, s: seq<Byte>): Edit
    decreases |s|
  {
    BitsConsume(s, 5);
    match GetVarint32(s)
    case Failed => e
    case Parsed(tag, s1) =>
      FieldConsumes(e, tag, s1);
      match GetField(e, tag, s1)
      case Failed => e
      case Parsed(e', rest) => FieldsSet(e', rest)
  }

  // ---- Round trip

  ghost predicate Fits(e: Edit) {
    && (e.comparator.Present? ==> |e.comparator.value| < TWO_32)
    && (e.logNumber.Present? ==> e.logNumber.value < TWO_64)
    && (e.prevLogNumber.Present? ==> e.prevLogNumber.value < TWO_64)
    && (e.nextFileNumber.Present? ==> e.nextFileNumber.value < TWO_64)
    && (e.lastSequence.Present? ==> e.lastSequence.value < TWO_64)
    && (forall i | 0 <= i < |e.compactPointers| :: PointerFits(e.compactPointers[i]))
    && (forall i | 0 <= i < |e.deletedFiles| :: DeletedFits(e.deletedFiles[i]))
    && DeletedInOrder(e.deletedFiles)
    && (forall i | 0 <= i < |e.newFiles| :: NewFileFits(e.newFiles[i]))
  }

  predicate PointerFits(p: Pointer) {
    p.level < Version.NUM_LEVELS && |p.key| < TWO_32
  }

  predicate DeletedFits(d: Deleted) {
    d.level < Version.NUM_LEVELS && d.number < TWO_64
  }

  predicate NewFileFits(f: NewFile) {
    f.level < Version.NUM_LEVELS && f.number < TWO_64 && f.size < TWO_64 && |f.smallest| < TWO_32 && |f.largest| < TWO_32
  }

  /** Decoding a field with its tag, and going on with what follows. */
  lemma FieldDecodes(e: Edit, tag: nat, field: seq<Byte>, rest: seq<Byte>, e': Edit)
    requires tag < TWO_32 && GetField(e, tag, field + rest) == Parsed(e', rest)
    ensures DecodeFields(e, PutVarint(tag) + field + rest) == DecodeFields(e', rest)
  {
    hide GetField, GetVarint32, PutVarint, GetBits;
    assert PutVarint(tag) + field + rest == PutVarint(tag) + (field + rest);
    Varint32RoundTrip(tag, field + rest);
  }

  lemma NumberDecodes(e: Edit, tag: nat, v: Maybe<nat>, rest: seq<Byte>, e': Edit)
    requires v.Present? ==> v.value < TWO_64
    requires tag == LOG_NUMBER || tag == PREV_LOG_NUMBER || tag == NEXT_FILE_NUMBER || tag == LAST_SEQUENCE
    requires e' == if v.Absent? then e
                   else if tag == LOG_NUMBER then e.(logNumber := v)
                   else if tag == PREV_LOG_NUMBER then e.(prevLogNumber := v)
                   else if tag == NEXT_FILE_NUMBER then e.(nextFileNumber := v)
                   else e.(lastSequence := v)
    ensures DecodeFields(e, PutNumber(tag, v) + rest) == DecodeFields(e', rest)
  {
    hide DecodeFields, GetVarint64, PutVarint, GetPointer, GetDeleted, GetNewFile, GetSlice;
    if v.Present? {
      Varint64RoundTrip(v.value, rest);
      FieldDecodes(e, tag, PutVarint(v.value), rest, e');
    } else {
      assert [] + rest == rest;
    }
  }

  lemma ComparatorDecodes(e: Edit, v: Maybe<seq<Byte>>, rest: seq<Byte>)
    requires v.Present? ==> |v.value| < TWO_32
    ensures DecodeFields(e, PutComparator(v) + rest) == DecodeFields(if v.Absent? then e else e.(comparator := v), rest)
  {
    hide DecodeFields, GetVarint64, PutVarint, GetPointer, GetDeleted, GetNewFile, GetSlice, PutSlice;
    if v.Present? {
      SliceRoundTrip(v.value, rest);
      FieldDecodes(e, COMPARATOR, PutSlice(v.value), rest, e.(comparator := v));
    } else {
      assert [] + rest == rest;
    }
  }

  lemma PointerRoundTrip(p: Pointer, rest: seq<Byte>)
    requires PointerFits(p)
    ensures GetPointer(PutVarint(p.level) + PutSlice(p.key) + rest) == Parsed(p, rest)
  {
    hide GetVarint32, PutVarint, GetSlice, PutSlice;
    assert PutVarint(p.level) + PutSlice(p.key) + rest == PutVarint(p.level) + (PutSlice(p.key) + rest);
    Varint32RoundTrip(p.level, PutSlice(p.key) + rest);
    SliceRoundTrip(p.key, rest);
  }

  lemma DeletedRoundTrip(d: Deleted, rest: seq<Byte>)
    requires DeletedFits(d)
    ensures GetDeleted(PutVarint(d.level) + PutVarint(d.number) + rest) == Parsed(d, rest)
  {
    hide GetVarint32, PutVarint, GetVarint64;
    assert PutVarint(d.level) + PutVarint(d.number) + rest == PutVarint(d.level) + (PutVarint(d.number) + rest);
    Varint32RoundTrip(d.level, PutVarint(d.number) + rest);
    Varint64RoundTrip(d.number, rest);
  }

  lemma NewFileRoundTrip(f: NewFile, rest: seq<Byte>)
    requires NewFileFits(f)
    ensures GetNewFile(PutVarint(f.level) + PutVarint(f.number) + PutVarint(f.size) + PutSlice(f.smallest) + PutSlice(f.largest) + rest)
            == Parsed(f, rest)
  {
    hide GetVarint32, PutVarint, GetVarint64, GetSlice, PutSlice;
    var r5 := PutSlice(f.largest) + rest;
    var r4 := PutSlice(f.smallest) + r5;
    var r3 := PutVarint(f.size) + r4;
    var r2 := PutVarint(f.number) + r3;
    FiveParts(PutVarint(f.level), PutVarint(f.number), PutVarint(f.size), PutSlice(f.smallest), PutSlice(f.largest), rest);
    Varint32RoundTrip(f.level, r2);
    Varint64RoundTrip(f.number, r3);
    Varint64RoundTrip(f.size, r4);
    SliceRoundTrip(f.smallest, r5);
    SliceRoundTrip(f.largest, rest);
  }

  lemma FiveParts(a: seq<Byte>, b: seq<Byte>, c: seq<Byte>, d: seq<Byte>, e: seq<Byte>, rest: seq<Byte>)
    ensures a + b + c + d + e + rest == a + (b + (c + (d + (e + rest))))
  {
  }

  lemma {:induction false} PointersDecode(e: Edit, ps: seq<Pointer>, rest: seq<Byte>)
    requires forall i | 0 <= i < |ps| :: PointerFits(ps[i])
    ensures DecodeFields(e, PutPointers(ps) + rest) == DecodeFields(e.(compactPointers := e.compactPointers + ps), rest)
    decreases |ps|
  {
    hide DecodeFields, PutVarint, PutSlice, GetPointer, GetVarint64, GetSlice, GetDeleted, GetNewFile;
    if ps == [] {
      assert [] + rest == rest && e.compactPointers + ps == e.compactPointers;
    } else {
      var p, more := ps[0], PutPointers(ps[1..]) + rest;
      var field := PutVarint(p.level) + PutSlice(p.key);
      var e' := e.(compactPointers := e.compactPointers + [p]);
      PointerRoundTrip(p, more);
      FieldDecodes(e, COMPACT_POINTER, field, more, e');
      assert PutPointers(ps) + rest == PutVarint(COMPACT_POINTER) + field + more;
      PointersDecode(e', ps[1..], rest);
      assert e.compactPointers + [p] + ps[1..] == e.compactPointers + ps;
    }
  }

  lemma {:induction false} InsertLast(ds: seq<Deleted>, d: Deleted)
    requires DeletedInOrder(ds + [d])
    ensures InsertDeleted(ds, d) == ds + [d]
  {
    if ds != [] {
      assert (ds + [d])[|ds|] == d && (ds + [d])[0] == ds[0];
      assert DeletedBefore(ds[0], d);
      assert ds[1..] + [d] == (ds + [d])[1..];
      InsertLast(ds[1..], d);
      assert ds == [ds[0]] + ds[1..];
    }
  }

  lemma {:induction false} DeletedDecode(e: Edit, ds: seq<Deleted>, rest: seq<Byte>)
    requires (forall i | 0 <= i < |ds| :: DeletedFits(ds[i])) && DeletedInOrder(e.deletedFiles + ds)
    ensures DecodeFields(e, PutDeletedFiles(ds) + rest) == DecodeFields(e.(deletedFiles := e.deletedFiles + ds), rest)
    decreases |ds|
  {
    hide DecodeFields, PutVarint, GetPointer, GetVarint64, GetSlice, GetDeleted, GetNewFile, InsertDeleted, DeletedBefore;
    if ds == [] {
      assert [] + rest == rest && e.deletedFiles + ds == e.deletedFiles;
    } else {
      var d, more := ds[0], PutDeletedFiles(ds[1..]) + rest;
      var field := PutVarint(d.level) + PutVarint(d.number);
      var e' := e.(deletedFiles := e.deletedFiles + [d]);
      DeletedRoundTrip(d, more);
      var all := e.deletedFiles + ds;
      assert e.deletedFiles + [d] == all[..|e.deletedFiles| + 1];
      InsertLast(e.deletedFiles, d);
      FieldDecodes(e, DELETED_FILE, field, more, e');
      assert PutDeletedFiles(ds) + rest == PutVarint(DELETED_FILE) + field + more;
      assert e.deletedFiles + [d] + ds[1..] == all;
      DeletedDecode(e', ds[1..], rest);
    }
  }

  lemma {:induction false} NewFilesDecode(e: Edit, fs: seq<NewFile>, rest: seq<Byte>)
    requires forall i | 0 <= i < |fs| :: NewFileFits(fs[i])
    ensures DecodeFields(e, PutNewFiles(fs) + rest) == DecodeFields(e.(newFiles := e.newFiles + fs), rest)
    decreases |fs|
  {
    hide DecodeFields, PutVarint, PutSlice, GetPointer, GetVarint64, GetSlice, GetDeleted, GetNewFile;
    if fs == [] {
      assert [] + rest == rest && e.newFiles + fs == e.newFiles;
    } else {
      var f, more := fs[0], PutNewFiles(fs[1..]) + rest;
      var field := PutVarint(f.level) + PutVarint(f.number) + PutVarint(f.size) + PutSlice(f.smallest) + PutSlice(f.largest);
      var e' := e.(newFiles := e.newFiles + [f]);
      NewFileRoundTrip(f, more);
      FieldDecodes(e, NEW_FILE, field, more, e');
      NewFileSplits(f, PutNewFiles(fs[1..]), rest);
      NewFilesDecode(e', fs[1..], rest);
      assert e.newFiles + [f] + fs[1..] == e.newFiles + fs;
    }
  }

  lemma NewFileSplits(f: NewFile, others: seq<Byte>, rest: seq<Byte>)
    ensures PutNewFile(f) + others + rest
            == PutVarint(NEW_FILE) + (PutVarint(f.level) + PutVarint(f.number) + PutVarint(f.size) + PutSlice(f.smallest) + PutSlice(f.largest))
               + (others + rest)
  {
    hide PutVarint, PutSlice;
    FiveParts(PutVarint(f.level), PutVarint(f.number), PutVarint(f.size), PutSlice(f.smallest), PutSlice(f.largest), []);
    FiveParts(PutVarint(NEW_FILE), PutVarint(f.level), PutVarint(f.number), PutVarint(f.size), PutSlice(f.smallest), PutSlice(f.largest));
  }

  // ---- The loops

  /** EncodeTo. */
  method EncodeTo(e: Edit) returns (dst: seq<Byte>)
    ensures dst == Encode(e)
  {
    hide PutNumber, PutComparator, PutPointer, PutDeleted, PutNewFile;
    dst := PutComparator(e.comparator);
    dst := dst + PutNumber(LOG_NUMBER, e.logNumber);
    dst := dst + PutNumber(PREV_LOG_NUMBER, e.prevLogNumber);
    dst := dst + PutNumber(NEXT_FILE_NUMBER, e.nextFileNumber);
    dst := dst + PutNumber(LAST_SEQUENCE, e.lastSequence);
    ghost var head := dst;
    for i := 0 to |e.compactPointers|
      invariant dst + PutPointers(e.compactPointers[i..]) == head + PutPointers(e.compactPointers)
    {
      dst := dst + PutPointer(e.compactPointers[i]);
    }
    assert dst + [] == dst;
    ghost var head2 := dst;
    for i := 0 to |e.deletedFiles|
      invariant dst + PutDeletedFiles(e.deletedFiles[i..]) == head2 + PutDeletedFiles(e.deletedFiles)
    {
      dst := dst + PutDeleted(e.deletedFiles[i]);
    }
    assert dst + [] == dst;
    ghost var head3 := dst;
    for i := 0 to |e.newFiles|
      invariant dst + PutNewFiles(e.newFiles[i..]) == head3 + PutNewFiles(e.newFiles)
    {
      dst := dst + PutNewFile(e.newFiles[i]);
    }
    assert dst + [] == dst;
    Regroup(PutComparator(e.comparator), PutNumber(LOG_NUMBER, e.logNumber), PutNumber(PREV_LOG_NUMBER, e.prevLogNumber),
            PutNumber(NEXT_FILE_NUMBER, e.nextFileNumber), PutNumber(LAST_SEQUENCE, e.lastSequence),
            PutPointers(e.compactPointers), PutDeletedFiles(e.deletedFiles), PutNewFiles(e.newFiles));
  }

  lemma Regroup(a: seq<Byte>, b: seq<Byte>, c: seq<Byte>, d: seq<Byte>, e: seq<Byte>, f: seq<Byte>, g: seq<Byte>, h: seq<Byte>)
    ensures a + b + c + d + e + f + g + h == a + (b + (c + (d + (e + (f + (g + h))))))
  {
  }

  /** DecodeFrom; on an error the object keeps the fields set until then. */
  method DecodeFrom(into: Edit, src: seq<Byte>) returns (e: Edit, ok: bool)
    ensures ok <==> Decode(into, src).Parsed?
    ensures ok ==> e == Decode(into, src).value
    ensures e == FieldsSet(Clear(into), src)
  {
    hide GetField, GetVarint32;
    e := Clear(into);
    var input := src;
    BitsConsume(input, 5);
    var tag := GetVarint32(input);
    while tag.Parsed?
      invariant tag == GetVarint32(input)
      invariant DecodeFields(e, input) == Decode(into, src) && FieldsSet(e, input) == FieldsSet(Clear(into), src)
      decreases |input|
    {
      var field := GetField(e, tag.value, tag.rest);
      TagConsumes(input);
      FieldConsumes(e, tag.value, tag.rest);
      if field.Failed? {
        return e, false;
      }
      e, input := field.value, field.rest;
      tag := GetVarint32(input);
    }
    ok := input == [];
  }

  lemma TagConsumes(s: seq<Byte>)
    ensures GetVarint32(s).Parsed? ==> |GetVarint32(s).rest| < |s|
  {
    BitsConsume(s, 5);
  }

  /** What decoding gives, exactly: the encoded edit, behind whatever compaction pointers the object held. */
  lemma DecodeEncode(into: Edit, e: Edit)
    requires Fits(e)
    ensures Decode(into, Encode(e)) == Parsed(e.(compactPointers := into.compactPointers + e.compactPointers), [])
  {
    hide PutNewFiles, PutDeletedFiles, PutPointers, PutNumber, PutComparator, DecodeFields, Encode, Decode, Fits, DeletedInOrder,
         PointerFits, DeletedFits, NewFileFits;
    var r7 := PutNewFiles(e.newFiles);
    var r6 := PutDeletedFiles(e.deletedFiles) + r7;
    var r5 := PutPointers(e.compactPointers) + r6;
    var r4 := PutNumber(LAST_SEQUENCE, e.lastSequence) + r5;
    var r3 := PutNumber(NEXT_FILE_NUMBER, e.nextFileNumber) + r4;
    var r2 := PutNumber(PREV_LOG_NUMBER, e.prevLogNumber) + r3;
    var r1 := PutNumber(LOG_NUMBER, e.logNumber) + r2;
    EncodeSplits(e, r1, r2, r3, r4, r5, r6, r7);
    FitsParts(e);
    var e0 := Start(into, e);
    var e1 := e0.(comparator := e.comparator);
    var e2 := e1.(logNumber := e.logNumber);
    var e3 := e2.(prevLogNumber := e.prevLogNumber);
    var e4 := e3.(nextFileNumber := e.nextFileNumber);
    var e5 := e4.(lastSequence := e.lastSequence);
    var e6 := e5.(compactPointers := into.compactPointers + e.compactPointers);
    var e7 := e6.(deletedFiles := [] + e.deletedFiles);
    ComparatorDecodes(e0, e.comparator, r1);
    NumberDecodes(e1, LOG_NUMBER, e.logNumber, r2, e2);
    NumberDecodes(e2, PREV_LOG_NUMBER, e.prevLogNumber, r3, e3);
    NumberDecodes(e3, NEXT_FILE_NUMBER, e.nextFileNumber, r4, e4);
    NumberDecodes(e4, LAST_SEQUENCE, e.lastSequence, r5, e5);
    PointersDecode(e5, e.compactPointers, r6);
    assert [] + e.deletedFiles == e.deletedFiles;
    DeletedDecode(e6, e.deletedFiles, r7);
    assert r7 + [] == r7;
    NewFilesDecode(e7, e.newFiles, []);
    assert [] + e.newFiles == e.newFiles;
    NothingLeft(e7.(newFiles := [] + e.newFiles));
  }

  lemma Start(into: Edit, e: Edit) returns (e0: Edit)
    ensures e0 == Edit(Absent, Absent, Absent, Absent, Absent, into.compactPointers, [], [])
    ensures Decode(into, Encode(e)) == DecodeFields(e0, Encode(e))
  {
    hide DecodeFields, Encode;
    e0 := Clear(into);
  }

  lemma NothingLeft(e: Edit)
    ensures DecodeFields(e, []) == Parsed(e, [])
  {
  }

  lemma FitsParts(e: Edit)
    requires Fits(e)
    ensures e.comparator.Present? ==> |e.comparator.value| < TWO_32
    ensures e.logNumber.Present? ==> e.logNumber.value < TWO_64
    ensures e.prevLogNumber.Present? ==> e.prevLogNumber.value < TWO_64
    ensures e.nextFileNumber.Present? ==> e.nextFileNumber.value < TWO_64
    ensures e.lastSequence.Present? ==> e.lastSequence.value < TWO_64
    ensures forall i | 0 <= i < |e.compactPointers| :: PointerFits(e.compactPointers[i])
    ensures forall i | 0 <= i < |e.deletedFiles| :: DeletedFits(e.deletedFiles[i])
    ensures DeletedInOrder(e.deletedFiles)
    ensures forall i | 0 <= i < |e.newFiles| :: NewFileFits(e.newFiles[i])
  {
  }

  lemma EncodeSplits(e: Edit, r1: seq<Byte>, r2: seq<Byte>, r3: seq<Byte>, r4: seq<Byte>, r5: seq<Byte>, r6: seq<Byte>, r7: seq<Byte>)
    requires r7 == PutNewFiles(e.newFiles) && r6 == PutDeletedFiles(e.deletedFiles) + r7
    requires r5 == PutPointers(e.compactPointers) + r6 && r4 == PutNumber(LAST_SEQUENCE, e.lastSequence) + r5
    requires r3 == PutNumber(NEXT_FILE_NUMBER, e.nextFileNumber) + r4 && r2 == PutNumber(PREV_LOG_NUMBER, e.prevLogNumber) + r3
    requires r1 == PutNumber(LOG_NUMBER, e.logNumber) + r2
    ensures Encode(e) == PutComparator(e.comparator) + r1
  {
    hide PutNumber, PutComparator, PutPointers, PutDeletedFiles, PutNewFiles;
  }

  /** Decoding an encoded edit gives it back exactly when the object decoded into held no compaction pointers,
      as in Recover, which uses a fresh one for every record. */
  lemma RoundTripIff(into: Edit, e: Edit)
    requires Fits(e)
    ensures Decode(into, Encode(e)) == Parsed(e, []) <==> into.compactPointers == []
  {
    hide Decode, Encode;
    DecodeEncode(into, e);
    if into.compactPointers == [] {
      assert into.compactPointers + e.compactPointers == e.compactPointers;
    } else {
      assert |into.compactPointers + e.compactPointers| > |e.compactPointers|;
    }
  }
}
