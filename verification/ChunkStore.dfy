/**
  A data node: chunk files with a version field behind the data, and a journal of
  writes and deletions that a secondary applies to files of its own.
 */
module ChunkStore {
  import opened Numbers
  import opened Options
  import opened ChunkBytes

  const WRITE_LOG_FLAG: nat := 1
  const DELETE_LOG_FLAG: nat := 2

  type File = seq<byte>
  type Store = map<nat, File>
  datatype Status = OK | NotFound | WrongVersion

  datatype WriteRequest = WriteRequest(id: nat, offset: nat, size: nat, targetSize: nat, version: nat, padding: byte,
                                       data: seq<byte>) {
    /** The slot lies in the chunk, and the numbers are 64 bits wide. */
    ghost predicate Fits() {
      id < TWO64 && version < TWO64 && offset + TargetSizeWrapper(targetSize) <= FILE_SIZE
    }

    function Padded(): (r: seq<byte>)
      ensures |r| == TargetSizeWrapper(targetSize) > 0
    {
      PaddedData(data, size, targetSize, padding)
    }
  }

  // ---- files

  /** Data and version field, nothing else. */
  ghost predicate Whole(f: File) { |f| == FILE_SIZE + 8 }

  function GetVersion(f: File): (v: nat)
    requires |f| >= FILE_SIZE + 8
  {
    Number(f[VERSION_START..VERSION_START + 8])
  }

  function UpdateVersion(f: File, version: nat): (g: File)
    ensures |f| == FILE_SIZE || |f| == FILE_SIZE + 8 ==> |g| == FILE_SIZE + 8
  {
    WriteAt(f, Uint64ToBytes(version), VERSION_START)
  }

  /** The version is what was last stored, and storing it leaves the data alone. */
  lemma VersionStored(f: File, version: nat)
    requires (|f| == FILE_SIZE || |f| == FILE_SIZE + 8) && version < TWO64
    ensures GetVersion(UpdateVersion(f, version)) == version
    ensures UpdateVersion(f, version)[..FILE_SIZE] == f[..FILE_SIZE]
  {
    Uint64RoundTrip(version);
    hide Number, Digits;
    assert UpdateVersion(f, version)[VERSION_START..VERSION_START + 8] == Uint64ToBytes(version);
  }

  // ---- serving

  /** Only the next version of a chunk is accepted; a chunk that is not there is at version 0. */
  predicate Accepts(f: Option<File>, version: nat)
    requires f.Some? ==> Whole(f.value)
  {
    if f.None? then version == 1 else (GetVersion(f.value) + 1) % TWO64 == version
  }

  /** The file after an accepted write. */
  function Updated(f: Option<File>, r: WriteRequest): (g: File)
    requires r.Fits() && (f.Some? ==> Whole(f.value))
    ensures Whole(g)
  {
    UpdateVersion(if f.None? then PaddedFile(r.data, r.size, r.targetSize, r.padding, r.offset)
                  else WriteAt(f.value, r.Padded(), r.offset), r.version)
  }

  lemma UpdatedVersion(f: Option<File>, r: WriteRequest)
    requires r.Fits() && (f.Some? ==> Whole(f.value))
    ensures GetVersion(Updated(f, r)) == r.version
  {
    hide GetVersion, PaddedFile, PaddedData, UpdateVersion;
    VersionStored(if f.None? then PaddedFile(r.data, r.size, r.targetSize, r.padding, r.offset)
                  else WriteAt(f.value, r.Padded(), r.offset), r.version);
  }

  function FileOf(st: Store, id: nat): (f: Option<File>) { if id in st then Some(st[id]) else None }

  ghost predicate AllWhole(st: Store) { forall id :: id in st ==> Whole(st[id]) }

  function Write(st: Store, r: WriteRequest): (s: (Store, Status))
    requires r.Fits() && AllWhole(st)
    ensures AllWhole(s.0)
  {
    var f := FileOf(st, r.id);
    if Accepts(f, r.version) then (st[r.id := Updated(f, r)], OK) else (st, WrongVersion)
  }

  /** The bytes asked for, if the file is there, recent enough and long enough. */
  function Read(st: Store, id: nat, offset: nat, size: nat, version: nat): (s: (Status, seq<byte>))
    requires AllWhole(st)
  {
    if id !in st then (NotFound, [])
    else if GetVersion(st[id]) < version then (WrongVersion, [])
    else if offset + size > |st[id]| then (NotFound, [])
    else (OK, st[id][offset..offset + size])
  }

  // ---- what a write stores and a read returns

  /** A target size of 0 stands for one block of 2048 bytes. */
  ghost function SlotSize(r: WriteRequest): (n: nat) { if r.targetSize == 0 then 2048 else r.targetSize }

  /** Byte `i` of the slot: the client's data as far as they go, and padding behind them. */
  ghost function Meant(r: WriteRequest, i: nat): (b: byte) {
    if i < r.size && i < |r.data| then r.data[i] else r.padding
  }

  /** Byte `p` of the file after the write: around the slot a new file holds padding, an old one what it held. */
  ghost function MeantAt(f: Option<File>, r: WriteRequest, p: nat): (b: byte)
    requires (f.Some? ==> Whole(f.value)) && p < FILE_SIZE
  {
    if r.offset <= p < r.offset + SlotSize(r) then Meant(r, p - r.offset)
    else if f.Some? then f.value[p] else r.padding
  }

  lemma PaddedMeans(r: WriteRequest)
    ensures |r.Padded()| == SlotSize(r) && forall i: nat :: i < SlotSize(r) ==> r.Padded()[i] == Meant(r, i)
  {
  }

  /** An accepted write stores the client's data in its slot, with padding behind them, and the version. */
  lemma UpdatedMeans(f: Option<File>, r: WriteRequest)
    requires r.Fits() && (f.Some? ==> Whole(f.value))
    ensures GetVersion(Updated(f, r)) == r.version && |Updated(f, r)| == FILE_SIZE + 8
    ensures forall p: nat :: p < FILE_SIZE ==> Updated(f, r)[p] == MeantAt(f, r, p)
  {
    UpdatedVersion(f, r);
    PaddedMeans(r);
    var made := if f.None? then PaddedFile(r.data, r.size, r.targetSize, r.padding, r.offset)
      else WriteAt(f.value, r.Padded(), r.offset);
    VersionStored(made, r.version);
    hide GetVersion, UpdateVersion;
    forall p: nat | p < FILE_SIZE
      ensures Updated(f, r)[p] == MeantAt(f, r, p)
    {
      assert Updated(f, r)[p] == Updated(f, r)[..FILE_SIZE][p] == made[p];
      if f.None? {
        WrittenAt(seq(FILE_SIZE, _ => r.padding), r.data[..Written(r.data, r.size, r.targetSize)], r.offset, p);
      } else {
        WrittenAt(f.value, r.Padded(), r.offset, p);
      }
    }
  }

  /** A write is answered OK exactly if its version is the next one, and then changes its chunk only; a refused
      write changes nothing. */
  lemma WriteMeans(st: Store, r: WriteRequest)
    requires r.Fits() && AllWhole(st)
    ensures var (st', status) := Write(st, r);
      && (status == OK <==> r.version == if r.id in st then (GetVersion(st[r.id]) + 1) % TWO64 else 1)
      && (status != OK ==> status == WrongVersion && st' == st)
      && (status == OK ==> r.id in st' && st' == st[r.id := st'[r.id]] && st'[r.id] == Updated(FileOf(st, r.id), r))
  {
    hide Updated, GetVersion;
  }

  /** When a read is answered, with which bytes, and when and how it is refused. */
  lemma ReadMeans(st: Store, id: nat, offset: nat, size: nat, version: nat)
    requires AllWhole(st)
    ensures var (status, data) := Read(st, id, offset, size, version);
      && (status == OK <==> id in st && version <= GetVersion(st[id]) && offset + size <= FILE_SIZE + 8)
      && (status == WrongVersion <==> id in st && GetVersion(st[id]) < version)
      && (status == OK ==> |data| == size && forall i: nat :: i < size ==> data[i] == st[id][offset + i])
      && (status != OK ==> data == [])
  {
    hide GetVersion;
  }

  /** What was written is read back: of the slot, as many bytes as are asked for, at this version or a lower one. */
  lemma WrittenIsThere(st: Store, r: WriteRequest, size: nat, version: nat)
    requires r.Fits() && AllWhole(st) && Write(st, r).1 == OK && size <= SlotSize(r) && version <= r.version
    ensures var (status, data) := Read(Write(st, r).0, r.id, r.offset, size, version);
      status == OK && |data| == size && forall i: nat :: i < size ==> data[i] == Meant(r, i)
  {
    WriteMeans(st, r);
    UpdatedMeans(FileOf(st, r.id), r);
    hide Write, Updated, GetVersion, Read;
    ReadMeans(Write(st, r).0, r.id, r.offset, size, version);
  }

  // ---- the journal

  function WriteEntry(r: WriteRequest, crc: seq<byte> -> nat): (e: seq<byte>) {
    var data := r.Padded();
    Uint64ToBytes(WRITE_LOG_FLAG) + Uint64ToBytes(r.version) + Uint64ToBytes(r.id) + Uint64ToBytes(r.offset)
    + Uint64ToBytes(|data|) + Uint32ToBytes(crc(data)) + data
  }

  method ConstructWriteEntry(r: WriteRequest, padded: seq<byte>, crc: seq<byte> -> nat) returns (entry: seq<byte>)
    requires padded == r.Padded()
    ensures entry == WriteEntry(r, crc)
  {
    entry := Uint64ToBytes(WRITE_LOG_FLAG);
    entry := entry + Uint64ToBytes(r.version);
    entry := entry + Uint64ToBytes(r.id);
    entry := entry + Uint64ToBytes(r.offset);
    entry := entry + Uint64ToBytes(|padded|);
    entry := entry + Uint32ToBytes(crc(padded));
    entry := entry + padded;
  }

  function DeleteEntry(id: nat): (e: seq<byte>) { Uint64ToBytes(DELETE_LOG_FLAG) + Uint64ToBytes(id) }

  /** An entry as the secondary reads it. */
  datatype Message = WriteMsg(version: nat, id: nat, offset: nat, size: nat, checksum: nat, data: seq<byte>)
                   | DeleteMsg(id: nat) | OtherMsg

  /** Long enough for what its flag announces. */
  ghost predicate Complete(e: seq<byte>) {
    && |e| >= 8
    && (Number(e[..8]) == WRITE_LOG_FLAG ==> |e| >= 44)
    && (Number(e[..8]) == DELETE_LOG_FLAG ==> |e| >= 16)
  }

  function Decode(e: seq<byte>): (m: Message)
    requires Complete(e)
  {
    var flag := Number(e[..8]);
    if flag == WRITE_LOG_FLAG then
      WriteMsg(Number(e[8..16]), Number(e[16..24]), Number(e[24..32]), Number(e[32..40]), Number(e[40..44]), e[44..])
    else if flag == DELETE_LOG_FLAG then DeleteMsg(Number(e[8..16]))
    else OtherMsg
  }

  /** What the secondary reads is what the primary wrote. */
  lemma DecodeWrite(r: WriteRequest, crc: seq<byte> -> nat)
    requires r.Fits() && crc(r.Padded()) < TWO32
    ensures var e := WriteEntry(r, crc); var data := r.Padded();
      Complete(e) && Decode(e) == WriteMsg(r.version, r.id, r.offset, |data|, crc(data), data)
  {
    var e := WriteEntry(r, crc);
    var data := r.Padded();
    Uint64RoundTrip(WRITE_LOG_FLAG);
    Uint64RoundTrip(r.version);
    Uint64RoundTrip(r.id);
    Uint64RoundTrip(r.offset);
    Uint64RoundTrip(|data|);
    Uint32RoundTrip(crc(data));
    hide Number, Uint64ToBytes, Uint32ToBytes, PaddedData;
    assert e[..8] == Uint64ToBytes(WRITE_LOG_FLAG) && e[8..16] == Uint64ToBytes(r.version);
    assert e[16..24] == Uint64ToBytes(r.id) && e[24..32] == Uint64ToBytes(r.offset);
    assert e[32..40] == Uint64ToBytes(|data|) && e[40..44] == Uint32ToBytes(crc(data)) && e[44..] == data;
  }

  lemma DecodeDelete(id: nat)
    requires id < TWO64
    ensures Complete(DeleteEntry(id)) && Decode(DeleteEntry(id)) == DeleteMsg(id)
  {
    var e := DeleteEntry(id);
    Uint64RoundTrip(DELETE_LOG_FLAG);
    Uint64RoundTrip(id);
    hide Number, Uint64ToBytes;
    assert e[..8] == Uint64ToBytes(DELETE_LOG_FLAG) && e[8..16] == Uint64ToBytes(id);
  }

  // ---- the secondary

  ghost predicate InFile(offset: nat, size: nat) { 0 < size && offset + size <= FILE_SIZE }

  /** The secondary's file after a write message: created with spaces around the data, or
      overwritten if the version or the checksum of the bytes there differs. */
  function HandleWrite(f: Option<File>, version: nat, offset: nat, size: nat, checksum: nat, data: seq<byte>,
                       crc: seq<byte> -> nat): (g: File)
    requires (f.Some? ==> Whole(f.value)) && InFile(offset, size) && |data| == size
    ensures Whole(g)
  {
    if f.None? then UpdateVersion(PaddedFile(data, size, size, SPACE, offset), version)
    else if checksum != crc(f.value[offset..offset + size]) || version != GetVersion(f.value) then
      UpdateVersion(WriteAt(f.value, data, offset), version)
    else f.value
  }

  /** A message the secondary can apply. */
  ghost predicate Applicable(m: Message) { m.WriteMsg? ==> InFile(m.offset, m.size) && |m.data| == m.size }

  function Handle(st: Store, m: Message, crc: seq<byte> -> nat): (st': Store)
    requires AllWhole(st) && Applicable(m)
    ensures AllWhole(st')
  {
    match m
    case WriteMsg(version, id, offset, size, checksum, data) =>
      st[id := HandleWrite(FileOf(st, id), version, offset, size, checksum, data, crc)]
    case DeleteMsg(id) => st - {id}
    case OtherMsg => st
  }

  /** Entries of any other kind are ignored. */
  lemma UnknownIgnored(st: Store, e: seq<byte>, crc: seq<byte> -> nat)
    requires AllWhole(st) && Complete(e) && Number(e[..8]) != WRITE_LOG_FLAG && Number(e[..8]) != DELETE_LOG_FLAG
    ensures Applicable(Decode(e)) && Handle(st, Decode(e), crc) == st
  {
  }

  // ---- the node as an object

  class Server {
    var files: Store
    var journal: seq<seq<byte>>
    const crc: seq<byte> -> nat

    constructor (crc: seq<byte> -> nat)
      ensures files == map[] && journal == [] && this.crc == crc
    {
      files, journal, this.crc := map[], [], crc;
    }

    /** The entry is journaled before the version is looked at, so a refused write is journaled too. */
    method WriteChunk(r: WriteRequest) returns (status: Status)
      requires r.Fits() && AllWhole(files)
      modifies this
      ensures files == Write(old(files), r).0 && status == Write(old(files), r).1
      ensures journal == old(journal) + [WriteEntry(r, crc)] && AllWhole(files)
    {
      var padded := GetPaddedData(r.data, r.size, r.targetSize, r.padding);
      var entry := ConstructWriteEntry(r, padded, crc);
      journal := journal + [entry];
      hide PaddedData, PaddedFile, UpdateVersion, Uint64ToBytes, Uint32ToBytes;
      if r.id !in files {
        if r.version != 1 {
          return WrongVersion;
        }
        var file := GetPaddedFile(r.data, r.size, r.targetSize, r.padding, r.offset);
        files := files[r.id := UpdateVersion(file, r.version)];
        return OK;
      }
      var file := files[r.id];
      if (GetVersion(file) + 1) % TWO64 == r.version {
        files := files[r.id := UpdateVersion(WriteAt(file, padded, r.offset), r.version)];
        return OK;
      }
      return WrongVersion;
    }

    method ReadChunk(id: nat, offset: nat, size: nat, version: nat) returns (status: Status, data: seq<byte>)
      requires AllWhole(files)
      ensures (status, data) == Read(files, id, offset, size, version)
    {
      if id !in files {
        return NotFound, [];
      }
      var file := files[id];
      if GetVersion(file) >= version {
        if offset + size > |file| {
          return NotFound, [];
        }
        return OK, file[offset..offset + size];
      }
      return WrongVersion, [];
    }

    method DeleteChunk(id: nat)
      modifies this
      ensures files == old(files) - {id} && journal == old(journal) + [DeleteEntry(id)]
    {
      journal := journal + [DeleteEntry(id)];
      files := files - {id};
    }

    method HandleMsg(e: seq<byte>)
      requires AllWhole(files) && Complete(e) && Applicable(Decode(e))
      modifies this`files
      ensures files == Handle(old(files), Decode(e), crc) && AllWhole(files)
    {
      var flag := Number(e[..8]);
      if flag == WRITE_LOG_FLAG {
        var version, id := Number(e[8..16]), Number(e[16..24]);
        var offset, size := Number(e[24..32]), Number(e[32..40]);
        var data := e[44..];
        hide PaddedFile, UpdateVersion, Number, WriteAt;
        if id !in files {
          var file := GetPaddedFile(data, size, size, SPACE, offset);
          files := files[id := UpdateVersion(file, version)];
        } else {
          var file := files[id];
          var there := file[offset..offset + size];
          if Number(e[40..44]) != crc(there) || version != GetVersion(file) {
            files := files[id := UpdateVersion(WriteAt(file, data, offset), version)];
          } else {
            assert files[id := file] == files;
          }
        }
      } else if flag == DELETE_LOG_FLAG {
        files := files - {Number(e[8..16])};
      }
    }
  }
}
