/** McsRead: reads an MCS file byte by byte, each byte with its address. */
module McsReader {
  import opened Bits
  import opened IntelHex

  /** What next() returns, and its exception. */
  datatype Status = DataRead | EofRead | BaseRead | Failed | OutOfRange

  datatype Cell = Cell(address: Word, data: Word)

  /** struct McsReadData */
  datatype McsData = McsData(address: Word, data: Word, endOfFile: bool)

  /** The bytes of a data record: base, record address and index are or-ed. */
  function CellsOf(base: Word, addr: Word, bytes: seq<Word>): (r: seq<Cell>)
    requires |bytes| <= 16
    ensures |r| == |bytes|
  {
    seq(|bytes|, i requires 0 <= i < |bytes| => Cell(Or32(Or32(base, addr), i), bytes[i]))
  }

  /** The bytes that a file yields before it ends or fails. */
  function Contents(scan: Scan, lines: seq<string>, base: Word): seq<Cell>
    decreases |lines|
  {
    if lines == [] then []
    else match ParseLine(scan, lines[0])
      case Data(addr, bytes) => CellsOf(base, addr, bytes) + Contents(scan, lines[1..], base)
      case Base(b) => Contents(scan, lines[1..], b)
      case _ => []
  }

  /** How it ends. A file without End Of File record fails. */
  function Finish(scan: Scan, lines: seq<string>): (r: Status)
    ensures r != DataRead && r != BaseRead
    decreases |lines|
  {
    if lines == [] then Failed
    else match ParseLine(scan, lines[0])
      case Data(_, _) => Finish(scan, lines[1..])
      case Base(_) => Finish(scan, lines[1..])
      case EndOfFile => EofRead
      case Bad => Failed
      case Throws => OutOfRange
  }

  /** The return value for a line; an exception is one of its own. */
  function StatusOf(p: Parsed): Status {
    match p
    case Data(_, _) => DataRead
    case Base(_) => BaseRead
    case EndOfFile => EofRead
    case Bad => Failed
    case Throws => OutOfRange
  }

  function Zip(addrs: seq<Word>, data: seq<Word>): (r: seq<Cell>)
    requires |addrs| == |data|
    ensures |r| == |addrs|
  {
    seq(|addrs|, i requires 0 <= i < |addrs| => Cell(addrs[i], data[i]))
  }

  function Add8(a: nat, w: nat): (r: nat)
    ensures r < 0x100
  {
    (a + w) % 0x100
  }

  lemma Add8Sum(s: nat, w: nat)
    ensures Add8(s % 0x100, w) == (s + w) % 0x100
  {
    ModAdd(s, w);
    ModAdd(s % 0x100, w);
  }

  /** The comparison of the running sum with the negated check sum. */
  lemma SumsCompared(s: nat, c: nat)
    ensures s % 0x100 == (0x100 - c % 0x100) % 0x100 <==> (s + c) % 0x100 == 0
  {
    ModAdd(s, c);
    NegatedByte(s % 0x100, c % 0x100);
  }

  lemma NegatedByte(x: Byte, y: Byte)
    ensures x == (0x100 - y) % 0x100 <==> (x + y) as nat % 0x100 == 0
  {}

  /** The loop that collects the data bytes of a record. */
  method Collect(scan: Scan, line: string, byteCnt: nat, data: array<Word>, sum: nat) returns (summing: nat)
    requires byteCnt <= 16 == data.Length && 10 + 2 * byteCnt < |line|
    requires sum == Sum(Fields(scan, line, byteCnt + 5)[..4]) % 0x100
    modifies data
    ensures data[..byteCnt] == Fields(scan, line, byteCnt + 5)[4..4 + byteCnt]
    ensures summing == Sum(Fields(scan, line, byteCnt + 5)[..4 + byteCnt]) % 0x100
  {
    ghost var fs := Fields(scan, line, byteCnt + 5);
    summing := sum;
    for i := 0 to byteCnt
      invariant data[..i] == fs[4..4 + i]
      invariant summing == Sum(fs[..4 + i]) % 0x100
    {
      data[i] := Field(scan, line, 9 + 2 * i);
      summing := Add8(summing, data[i]);
      assert fs[4 + i] == data[i];
      assert fs[..5 + i] == fs[..4 + i] + [fs[4 + i]];
      SumSnoc(fs[..4 + i], fs[4 + i]);
      Add8Sum(Sum(fs[..4 + i]), data[i]);
    }
  }

  /** The running sum over byte count, address and record type. */
  method Header(scan: Scan, line: string, byteCnt: nat) returns (summing: nat)
    requires 10 + 2 * byteCnt < |line|
    ensures summing == Sum(Fields(scan, line, byteCnt + 5)[..4]) % 0x100
  {
    ghost var fs := Fields(scan, line, byteCnt + 5);
    summing := 0;
    for i := 0 to 4
      invariant summing == Sum(fs[..i]) % 0x100
    {
      summing := Add8(summing, Field(scan, line, 1 + 2 * i));
      assert fs[..i + 1] == fs[..i] + [fs[i]];
      SumSnoc(fs[..i], fs[i]);
      Add8Sum(Sum(fs[..i]), fs[i]);
    }
  }

  lemma Unfold(scan: Scan, file: seq<string>, pos: nat, base: Word)
    requires pos <= |file|
    ensures pos == |file| ==> Contents(scan, file[pos..], base) == [] && Finish(scan, file[pos..]) == Failed
    ensures pos < |file| ==>
              var p := ParseLine(scan, file[pos]);
              Contents(scan, file[pos..], base) ==
              if p.Data? then CellsOf(base, p.addr, p.bytes) + Contents(scan, file[pos + 1..], base)
              else if p.Base? then Contents(scan, file[pos + 1..], p.base) else []
    ensures pos < |file| ==>
              var p := ParseLine(scan, file[pos]);
              Finish(scan, file[pos..]) == if p.Data? || p.Base? then Finish(scan, file[pos + 1..]) else StatusOf(p)
  {
    hide ParseLine, CellsOf;
    assert pos < |file| ==> file[pos..][0] == file[pos] && file[pos..][1..] == file[pos + 1..];
  }

  class McsRead {
    const scan: Scan
    const file: seq<string>   // the text between newlines, the last piece included
    var pos: nat              // next piece
    var promPntr: nat
    var promBaseAddr: Word
    var promLastAddr: Word
    const promData: array<Word>
    const promAddr: array<Word>
    var endOfFile: bool

    ghost predicate Valid()
      reads this
    {
      pos <= |file| && promPntr <= 16 == promData.Length == promAddr.Length && promData != promAddr
    }

    /** Bytes of the last data record not handed out yet. */
    ghost function Buffered(): seq<Cell>
      requires Valid()
      reads this, promData, promAddr
    {
      Zip(promAddr[promPntr..], promData[promPntr..])
    }

    /** Everything still to be read. */
    ghost function Left(): seq<Cell>
      requires Valid()
      reads this, promData, promAddr
    {
      Buffered() + (if endOfFile then [] else Contents(scan, file[pos..], promBaseAddr))
    }

    ghost function Ending(): Status
      requires Valid()
      reads this
    {
      if endOfFile then EofRead else Finish(scan, file[pos..])
    }

    /** open(), with the file there. */
    constructor (scan: Scan, file: seq<string>)
      ensures Valid() && fresh(promData) && fresh(promAddr) && this.scan == scan && this.file == file
      ensures pos == 0 && promPntr == 16 && promBaseAddr == 0 && !endOfFile
    {
      this.scan, this.file := scan, file;
      pos, promPntr, promBaseAddr, promLastAddr, endOfFile := 0, 16, 0, 0, false;
      promData, promAddr := new Word[16], new Word[16];
    }

    /** The save loop of a data record: data ends up right-aligned in the buffers. */
    method Save(data: array<Word>, byteCnt: nat, addr: Word)
      requires Valid() && 0 < byteCnt <= 16 == data.Length && data != promData && data != promAddr
      modifies this`promPntr, this`promLastAddr, promData, promAddr
      ensures Valid() && promPntr == 16 - byteCnt
      ensures Buffered() == CellsOf(promBaseAddr, addr, old(data[..byteCnt]))
      ensures promLastAddr == Buffered()[byteCnt - 1].address
    {
      hide Or32;
      promPntr := 16 - byteCnt;
      for i := 0 to byteCnt
        invariant Valid() && promPntr == 16 - byteCnt && data[..] == old(data[..])
        invariant forall k :: 0 <= k < i ==> promData[promPntr + k] == data[k]
        invariant forall k :: 0 <= k < i ==> promAddr[promPntr + k] == Or32(Or32(promBaseAddr, addr), k)
        invariant i > 0 ==> promLastAddr == promAddr[promPntr + i - 1]
        invariant promBaseAddr == old(promBaseAddr)
      {
        promData[i + promPntr] := data[i];
        promAddr[i + promPntr] := Or32(Or32(promBaseAddr, addr), i);
        promLastAddr := Or32(Or32(promBaseAddr, addr), i);
      }
    }

    /** The switch on the record type. */
    method Accept(line: string, byteCnt: nat, addr: Word, recordType: Word, checkField: Word) returns (status: Status)
      requires Valid() && byteCnt <= 16 && 10 + 2 * byteCnt < |line|
      requires var fs := Fields(scan, line, byteCnt + 5);
               fs[0] == byteCnt && Pair(fs[1], fs[2]) == addr && fs[3] == recordType && fs[4 + byteCnt] == checkField
      modifies this`promPntr, this`promLastAddr, this`promBaseAddr, this`endOfFile, promData, promAddr
      ensures Valid()
      ensures var p := Interpret(Fields(scan, line, byteCnt + 5));
              && status == StatusOf(p) && status != OutOfRange
              && (status == DataRead ==>
                    && byteCnt == |p.bytes| > 0 && promPntr == 16 - byteCnt
                    && Buffered() == CellsOf(promBaseAddr, p.addr, p.bytes)
                    && promLastAddr == Buffered()[byteCnt - 1].address)
              && promBaseAddr == (if status == BaseRead then p.base else old(promBaseAddr))
      ensures status != DataRead ==> unchanged(`promPntr, `promLastAddr, promData, promAddr)
      ensures endOfFile <==> old(endOfFile) || status == EofRead
    {
      hide CellsOf, Shl, Or32, Zip, Sum, Add8;
      ghost var fs := Fields(scan, line, byteCnt + 5);
      var summing := Header(scan, line, byteCnt);
      var checkSum := (0x100 - checkField % 0x100) % 0x100;
      var data := new Word[16];
      assert fs == fs[..4 + byteCnt] + [checkField];
      SumSnoc(fs[..4 + byteCnt], checkField);
      SumsCompared(Sum(fs[..4 + byteCnt]), checkField);
      match recordType {
        case 0 =>
          if byteCnt == 0 {
            return Failed;
          }
          summing := Collect(scan, line, byteCnt, data, summing);
          if summing != checkSum {
            return Failed;
          }
          Save(data, byteCnt, addr);
          return DataRead;
        case 1 =>
          SumSnoc(fs[..4], checkField);
          SumsCompared(Sum(fs[..4]), checkField);
          assert fs[..4] + fs[4 + byteCnt..] == fs[..4] + [checkField];
          if summing != checkSum {
            return Failed;
          }
          endOfFile := true;
          return EofRead;
        case 4 =>
          if byteCnt != 2 || addr != 0 {
            return Failed;
          }
          summing := Collect(scan, line, byteCnt, data, summing);
          if summing != checkSum {
            return Failed;
          }
          assert data[0] == fs[4] && data[1] == fs[5];
          promBaseAddr := Shl(Or32(Shl(data[0], 8), data[1]), 16);
          return BaseRead;
        case _ =>
          return Failed;
      }
    }

    /** The next record. */
    method Next() returns (status: Status)
      requires Valid()
      modifies this, promData, promAddr
      ensures Valid()
      ensures old(pos) == |file| ==> status == Failed && unchanged(this, promData, promAddr)
      ensures old(pos) < |file| ==> pos == old(pos) + 1 && status == StatusOf(ParseLine(scan, file[old(pos)]))
      ensures status == DataRead ==>
                && var p := ParseLine(scan, file[old(pos)]);
                && 0 < |p.bytes| <= 16 && promPntr == 16 - |p.bytes|
                && Buffered() == CellsOf(promBaseAddr, p.addr, p.bytes)
                && promLastAddr == Buffered()[|p.bytes| - 1].address
      ensures status != DataRead ==> unchanged(`promPntr, `promLastAddr, promData, promAddr)
      ensures promBaseAddr == if status == BaseRead then ParseLine(scan, file[old(pos)]).base else old(promBaseAddr)
      ensures endOfFile <==> old(endOfFile) || status == EofRead
    {
      hide Interpret, CellsOf, Shl, Or32, Zip;
      if pos == |file| {
        return Failed;
      }
      var line := file[pos];
      pos := pos + 1;
      if |line| == 0 {
        return OutOfRange;
      } else if line[0] != ':' {
        return Failed;
      } else if |line| < 9 {
        return OutOfRange;
      }
      var byteCnt := Field(scan, line, 1);
      var hi, lo, recordType := Field(scan, line, 3), Field(scan, line, 5), Field(scan, line, 7);
      var addr := Or32(Shl(hi, 8), lo);
      if (9 + 2 * byteCnt) % 0x1_0000_0000 >= |line| || (10 + 2 * byteCnt) % 0x1_0000_0000 >= |line| {
        return OutOfRange;
      }
      var checkField := scan(line[(9 + 2 * byteCnt) % 0x1_0000_0000], line[(10 + 2 * byteCnt) % 0x1_0000_0000]);
      if byteCnt > 16 {
        return Failed;
      }
      status := Accept(line, byteCnt, addr, recordType, checkField);
    }

    /** The loop of read(): records are taken until one brings data. */
    method Refill() returns (status: Status)
      requires Valid() && promPntr == 16 && !endOfFile
      modifies this, promData, promAddr
      ensures Valid()
      ensures if status == DataRead then
                promPntr < 16 && !endOfFile && Left() == old(Left()) && Ending() == old(Ending())
              else
                old(Left()) == [] && status == old(Ending()) != BaseRead && (endOfFile <==> status == EofRead)
    {
      hide Or32, ParseLine, Zip, CellsOf;
      ghost var cells, fin := Contents(scan, file[pos..], promBaseAddr), Finish(scan, file[pos..]);
      status := BaseRead;
      while status == BaseRead
        invariant Valid() && if status == DataRead then promPntr < 16 else promPntr == 16
        invariant status in {BaseRead, DataRead} ==> !endOfFile && Finish(scan, file[pos..]) == fin
        invariant status == BaseRead ==> Contents(scan, file[pos..], promBaseAddr) == cells
        invariant status == DataRead ==> Buffered() + Contents(scan, file[pos..], promBaseAddr) == cells
        invariant status !in {BaseRead, DataRead} ==> cells == [] && status == fin && (endOfFile <==> status == EofRead)
        decreases |file| - pos, status == BaseRead
      {
        Unfold(scan, file, pos, promBaseAddr);
        status := Next();
      }
    }

    /** The next byte of the file: of the record in the buffer or, when that is used
        up, of the next data record. */
    method Read(mem: McsData) returns (status: Status, next: McsData)
      requires Valid()
      modifies this, promData, promAddr
      ensures Valid()
      ensures if old(Left()) != [] then
                && status == DataRead && next == McsData(old(Left()[0]).address, old(Left()[0]).data, false)
                && Left() == old(Left())[1..] && Ending() == old(Ending())
              else
                && status == (if old(endOfFile) then DataRead else old(Ending()))
                && next == if old(Ending()) == EofRead then mem.(endOfFile := true) else mem
    {
      hide Or32, ParseLine, Contents, Finish, Zip;
      next, status := mem, DataRead;
      if promPntr == 16 {
        if !endOfFile {
          status := Refill();
        }
        if endOfFile {
          next := mem.(endOfFile := true);
          return;
        } else if status == Failed || status == OutOfRange {
          return;
        }
      }
      next := HandOut();
      status := DataRead;
    }

    /** The next byte of the record in the buffer. */
    method HandOut() returns (next: McsData)
      requires Valid() && promPntr < 16
      modifies this`promPntr
      ensures Valid() && Ending() == old(Ending())
      ensures old(Left()) != [] && Left() == old(Left())[1..]
      ensures next == McsData(old(Left()[0]).address, old(Left()[0]).data, false)
    {
      hide Contents, Finish, Zip;
      ZipTail(promAddr[..], promData[..], promPntr);
      FirstOff(Buffered(), if endOfFile then [] else Contents(scan, file[pos..], promBaseAddr));
      next := McsData(promAddr[promPntr], promData[promPntr], false);
      promPntr := promPntr + 1;
    }
  }

  lemma ZipTail(addrs: seq<Word>, data: seq<Word>, k: nat)
    requires k < |addrs| == |data|
    ensures Zip(addrs[k..], data[k..]) == [Cell(addrs[k], data[k])] + Zip(addrs[k + 1..], data[k + 1..])
  {}

  lemma FirstOff<T>(a: seq<T>, b: seq<T>)
    requires a != []
    ensures (a + b)[0] == a[0] && (a + b)[1..] == a[1..] + b
  {}

  /** What a list of records means, byte by byte. */
  function CellsIn(recs: seq<GoodRecord>, base: Word): seq<Cell>
    decreases |recs|
  {
    if recs == [] then []
    else match recs[0]
      case DataRecord(offset, bytes) => CellsOf(base, offset, bytes) + CellsIn(recs[1..], base)
      case BaseRecord(upper) => CellsIn(recs[1..], upper * 0x1_0000)
      case EofRecord => []
  }

  function PrintAll(recs: seq<GoodRecord>): (r: seq<string>)
    ensures |r| == |recs|
  {
    seq(|recs|, i requires 0 <= i < |recs| => Print(recs[i]))
  }

  /** Reading a printed list of records: every byte of every data record, up to the
      End Of File record. */
  lemma {:induction false} PrintedContents(scan: Scan, recs: seq<GoodRecord>, tail: seq<string>, base: Word)
    requires ScansHex(scan)
    requires recs != [] && recs[|recs| - 1].EofRecord?
    ensures Contents(scan, PrintAll(recs) + tail, base) == CellsIn(recs, base)
    ensures Finish(scan, PrintAll(recs) + tail) == EofRead
    decreases |recs|
  {
    hide ParseLine, Print, CellsOf, ScansHex;
    RoundTrip(scan, recs[0]);
    var lines := PrintAll(recs) + tail;
    assert lines[0] == Print(recs[0]);
    if !recs[0].EofRecord? {
      assert lines[1..] == PrintAll(recs[1..]) + tail;
      var base' := if recs[0].BaseRecord? then recs[0].upper * 0x1_0000 else base;
      PrintedContents(scan, recs[1..], tail, base');
    }
  }

  /** The least power of two that is no smaller than n, and its logarithm. */
  function Log2Above(n: nat): (k: nat)
    requires 1 <= n <= 16
    ensures n <= Pow2(k) < 2 * n && k <= 4
  {
    if n == 1 then 0 else if n <= 2 then 1 else if n <= 4 then 2 else if n <= 8 then 3 else 4
  }

  /** Bytes at consecutive addresses from `at` on. */
  predicate Consecutive(cells: seq<Cell>, at: nat) {
    forall i :: 0 <= i < |cells| ==> cells[i].address == at + i
  }

  lemma OffsetMod(upper: nat, offset: nat, k: nat)
    requires k <= 4
    ensures (upper * 0x1_0000 + offset) % Pow2(k) == offset % Pow2(k)
  {
    hide Pow2;
    PowValues();
    PowAdd(k, 16 - k);
    MultipleAdded(upper, Pow2(k), Pow2(16 - k), offset);
  }

  /** The segment and a record's offset share no bits. */
  lemma SegmentAdds(upper: nat, offset: nat)
    requires upper < 0x1_0000 && offset < 0x1_0000
    ensures Or32(upper * 0x1_0000, offset) == upper * 0x1_0000 + offset
  {
    hide Or, Pow2;
    PowValues();
    OrAdds(upper, offset, 16);
  }

  lemma AddressAt(upper: nat, offset: nat, bytes: seq<Word>, i: nat)
    requires upper < 0x1_0000 && offset < 0x1_0000 && i < |bytes| <= 16
    ensures CellsOf(upper * 0x1_0000, offset, bytes)[i].address == Or(upper * 0x1_0000 + offset, i)
  {
    hide Or;
    SegmentAdds(upper, offset);
  }

  /** When a data record's bytes get consecutive addresses: exactly if its offset is a
      multiple of the least power of two that is no smaller than its length. */
  lemma AddressExact(upper: nat, offset: nat, bytes: seq<Word>)
    requires upper < 0x1_0000 && offset < 0x1_0000 && 1 <= |bytes| <= 16
    ensures Consecutive(CellsOf(upper * 0x1_0000, offset, bytes), upper * 0x1_0000 + offset)
            <==> offset % Pow2(Log2Above(|bytes|)) == 0
  {
    hide Or, Pow2, Or32, Log2Above, CellsOf;
    var k, at := Log2Above(|bytes|), upper * 0x1_0000 + offset;
    var cells := CellsOf(upper * 0x1_0000, offset, bytes);
    OffsetMod(upper, offset, k);
    if at % Pow2(k) == 0 {
      forall i | 0 <= i < |bytes| ensures cells[i].address == at + i {
        AddressAt(upper, offset, bytes, i);
        AlignedOr(at, i, k);
      }
    } else {
      var i := OrLoses(at, k);
      assert Pow2(k) == 2 * Pow2(k - 1) by {
        PowHalf(k);
      }
      AddressAt(upper, offset, bytes, i);
      assert cells[i].address != at + i;
    }
  }

  lemma AlignedAddress(upper: nat, offset: nat, i: nat)
    requires upper < 0x1_0000 && offset < 0x1_0000 && offset % 16 == 0 && i < 16
    ensures Or32(Or32(upper * 0x1_0000, offset), i) == upper * 0x1_0000 + offset + i
  {
    hide Or, Pow2;
    SmallPowers(4);
    SegmentAdds(upper, offset);
    OffsetMod(upper, offset, 4);
    AlignedOr(upper * 0x1_0000 + offset, i, 4);
  }

  lemma PowHalf(k: nat)
    requires k > 0
    ensures Pow2(k) == 2 * Pow2(k - 1)
  {}

  lemma AlignedOr(at: nat, i: nat, k: nat)
    requires at % Pow2(k) == 0 && i < Pow2(k)
    ensures Or(at, i) == at + i
  {
    assert at == at / Pow2(k) * Pow2(k);
    OrAdds(at / Pow2(k), i, k);
  }

  /** The ninth byte of a 16-byte record at 8 is read at address 8. */
  lemma UnalignedRecord(bytes: seq<Byte>)
    requires |bytes| == 16
    ensures var cells := CellsIn([DataRecord(8, bytes), EofRecord], 0);
            |cells| == 16 && cells[8] == Cell(8, bytes[8])
  {
    hide Or32;
    var rec: GoodRecord := DataRecord(8, bytes);
    ConsRecord(rec, [EofRecord], 0);
    ConsRecord(EofRecord, [], 0);
    assert [rec, EofRecord] == [rec] + [EofRecord] && [EofRecord] + [] == [EofRecord];
    EightOrEight();
  }

  lemma EightOrEight()
    ensures Or32(Or32(0, 8), 8) == 8
  {
    assert Or(8, 8) == 8;
  }

  /** The parts of a byte address in a file: 64 KB segment and offset in it. */
  function Segment(at: nat): nat { at / 0x1_0000 }
  function Offset(at: nat): nat { at % 0x1_0000 }

  /** Bytes in the record at `at`. */
  function Chunk(image: seq<Byte>, at: nat): (n: nat)
    requires at <= |image|
    ensures n <= 16 && at + n <= |image| && (n < 16 ==> at + n == |image|) && (at < |image| ==> n > 0)
  {
    if |image| - at < 16 then |image| - at else 16
  }

  function DataAt(image: seq<Byte>, at: nat): GoodRecord
    requires at < |image|
  {
    DataRecord(Offset(at), image[at..at + Chunk(image, at)])
  }

  /** The records of an image: 16 bytes each, a base record at every 64 KB. */
  function ImageRecords(image: seq<Byte>, at: nat): (recs: seq<GoodRecord>)
    requires at <= |image| < 0x1_0000_0000
    ensures recs != [] && recs[|recs| - 1].EofRecord?
    decreases |image| - at
  {
    if at == |image| then [EofRecord]
    else
      (if Offset(at) == 0 then [BaseRecord(Segment(at))] else [])
      + ([DataAt(image, at)] + ImageRecords(image, at + Chunk(image, at)))
  }

  function CellsAt(image: seq<Byte>, at: nat): seq<Cell>
    requires at <= |image| < 0x1_0000_0000
  {
    seq(|image| - at, i requires 0 <= i < |image| - at => Cell(at + i, image[at + i]))
  }

  lemma CellsSplit(image: seq<Byte>, at: nat)
    requires at < |image| < 0x1_0000_0000 && at % 16 == 0
    ensures CellsOf(Segment(at) * 0x1_0000, Offset(at), DataAt(image, at).bytes) + CellsAt(image, at + Chunk(image, at))
            == CellsAt(image, at)
  {
    hide Or32;
    forall i | 0 <= i < 16 ensures Or32(Or32(Segment(at) * 0x1_0000, Offset(at)), i) == at + i {
      AlignedAddress(Segment(at), Offset(at), i);
    }
  }

  lemma ConsRecord(rec: GoodRecord, rest: seq<GoodRecord>, base: Word)
    ensures CellsIn([rec] + rest, base) ==
            if rec.DataRecord? then CellsOf(base, rec.offset, rec.bytes) + CellsIn(rest, base)
            else if rec.BaseRecord? then CellsIn(rest, rec.upper * 0x1_0000) else []
  {
    assert ([rec] + rest)[1..] == rest;
  }

  /** The next record starts a segment or lies in the same one. */
  lemma NextRecord(at: nat)
    requires at % 16 == 0
    ensures Offset(at + 16) == 0 || Segment(at + 16) == Segment(at)
  {}

  lemma RecordsAt(image: seq<Byte>, at: nat)
    requires at <= |image| < 0x1_0000_0000
    ensures at == |image| ==> ImageRecords(image, at) == [EofRecord] + [] && CellsAt(image, at) == []
    ensures at < |image| ==>
              var rest := [DataAt(image, at)] + ImageRecords(image, at + Chunk(image, at));
              ImageRecords(image, at) == if Offset(at) == 0 then [BaseRecord(Segment(at))] + rest else rest
  {
    if at < |image| && Offset(at) != 0 {
      var rest := [DataAt(image, at)] + ImageRecords(image, at + Chunk(image, at));
      assert [] + rest == rest;
    }
  }

  lemma {:induction false} ImageCells(image: seq<Byte>, at: nat, base: Word)
    requires at <= |image| < 0x1_0000_0000
    requires at == |image| || (at % 16 == 0 && (Offset(at) == 0 || base == Segment(at) * 0x1_0000))
    ensures CellsIn(ImageRecords(image, at), base) == CellsAt(image, at)
    decreases |image| - at
  {
    hide CellsOf, CellsIn, CellsAt, ImageRecords, Offset, Segment, DataAt, Chunk;
    RecordsAt(image, at);
    if at == |image| {
      ConsRecord(EofRecord, [], base);
    } else {
      var next := at + Chunk(image, at);
      SegmentFits(at);
      var here: Word := Segment(at) * 0x1_0000;
      if next < |image| {
        NextRecord(at);
      }
      ImageCells(image, next, here);
      CellsSplit(image, at);
      DataThere(image, at);
      ConsRecord(DataAt(image, at), ImageRecords(image, next), here);
      if Offset(at) == 0 {
        ConsRecord(BaseRecord(Segment(at)), [DataAt(image, at)] + ImageRecords(image, next), base);
      }
    }
  }

  lemma SegmentFits(at: nat)
    requires at < 0x1_0000_0000
    ensures Segment(at) < 0x1_0000
  {}

  lemma DataThere(image: seq<Byte>, at: nat)
    requires at < |image|
    ensures DataAt(image, at).DataRecord? && DataAt(image, at).offset == Offset(at)
  {}

  /** Reading the file of an image returns the image, byte by byte, each byte with
      its own address, and then the end of the file. */
  lemma ReadInvertsPrint(scan: Scan, image: seq<Byte>, tail: seq<string>)
    requires ScansHex(scan) && |image| < 0x1_0000_0000
    ensures Contents(scan, PrintAll(ImageRecords(image, 0)) + tail, 0) == CellsAt(image, 0)
    ensures Finish(scan, PrintAll(ImageRecords(image, 0)) + tail) == EofRead
  {
    PrintedContents(scan, ImageRecords(image, 0), tail, 0);
    ImageCells(image, 0, 0);
  }
}
