/** The records of an Intel-HEX (MCS) file as McsRead sees them, and the obvious
    printer that the reader has to invert. */
module IntelHex {
  import opened Bits

  predicate IsHex(c: char) {
    '0' <= c <= '9' || 'A' <= c <= 'F' || 'a' <= c <= 'f'
  }

  function HexValue(c: char): (v: nat)
    requires IsHex(c)
    ensures v < 16
  {
    if c <= '9' then c as int - '0' as int
    else if c <= 'F' then c as int - 'A' as int + 10
    else c as int - 'a' as int + 10
  }

  function HexChar(d: nat): (c: char)
    requires d < 16
    ensures IsHex(c) && HexValue(c) == d
  {
    if d < 10 then ('0' as int + d) as char else ('A' as int + d - 10) as char
  }

  /** What sscanf's "%x" makes of two characters. */
  type Scan = (char, char) -> Word

  /** Two hex digits are scanned as what they stand for; nothing is said of other
      characters. */
  ghost predicate ScansHex(scan: Scan) {
    forall c: char, d: char :: IsHex(c) && IsHex(d) ==> scan(c, d) == 16 * HexValue(c) + HexValue(d)
  }

  /** The value of the two characters from position `k` on. */
  function Field(scan: Scan, line: string, k: nat): Word
    requires k + 1 < |line|
  {
    scan(line[k], line[k + 1])
  }

  /** The first `n` fields after the start code. */
  function Fields(scan: Scan, line: string, n: nat): (r: seq<Word>)
    requires 2 * n < |line|
    ensures |r| == n
  {
    seq<Word>(n, i requires 0 <= i < n => Field(scan, line, 1 + 2 * i))
  }

  function Sum(ws: seq<nat>): nat
    decreases |ws|
  {
    if ws == [] then 0 else Sum(ws[..|ws| - 1]) + ws[|ws| - 1]
  }

  /** What a line means to the reader.
        Throws  line.at() is out of range: the line is too short
        Bad     the line is refused
        Base    Extended Linear Address record, already shifted */
  datatype Parsed = Throws | Bad | Data(addr: Word, bytes: seq<Word>) | EndOfFile | Base(base: Word)

  function Shl(w: Word, n: nat): Word {
    w * Pow2(n) % 0x1_0000_0000
  }

  function Or32(a: Word, b: Word): Word {
    OrBound32(a, b);
    Or(a, b)
  }

  lemma OrBound32(a: Word, b: Word)
    ensures Or(a, b) < 0x1_0000_0000
  {
    hide Pow2;
    PowValues();
    OrBound(a, b, 32);
  }

  /** Two bytes of an address, most significant first. */
  function Pair(hi: Word, lo: Word): Word {
    Or32(Shl(hi, 8), lo)
  }

  /** 8-bit sums agree: the record's bytes, the check sum among them, add up to
      0 modulo 256. */
  predicate Sums(ws: seq<nat>) {
    Sum(ws) % 0x100 == 0
  }

  function ParseLine(scan: Scan, line: string): Parsed {
    if line == [] then Throws
    else if line[0] != ':' then Bad
    else if |line| < 9 then Throws
    else
      var n := Field(scan, line, 1);
      if (10 + 2 * n) % 0x1_0000_0000 >= |line| || (9 + 2 * n) % 0x1_0000_0000 >= |line| then Throws
      else if n > 16 then Bad
      else Interpret(Fields(scan, line, n + 5))
  }

  /** The record with byte count fs[0], address fs[1] fs[2], type fs[3], data and
      check sum. The End Of File record's data is left out of its sum. */
  function Interpret(fs: seq<Word>): Parsed
    requires |fs| >= 5 && |fs| - 5 == fs[0]
  {
    var n: nat, addr := fs[0], Pair(fs[1], fs[2]);
    match fs[3]
    case 0 => if n > 0 && Sums(fs) then Data(addr, fs[4..4 + n]) else Bad
    case 1 => if Sums(fs[..4] + fs[4 + n..]) then EndOfFile else Bad
    case 4 => if n == 2 && addr == 0 && Sums(fs) then Base(Shl(Pair(fs[4], fs[5]), 16)) else Bad
    case _ => Bad
  }

  /** A record as a file writer has it. */
  datatype Record = DataRecord(offset: nat, bytes: seq<Byte>) | BaseRecord(upper: nat) | EofRecord

  predicate RecordOk(rec: Record) {
    match rec
    case DataRecord(offset, bytes) => offset < 0x1_0000 && 1 <= |bytes| <= 16
    case BaseRecord(upper) => upper < 0x1_0000
    case EofRecord => true
  }

  type GoodRecord = rec: Record | RecordOk(rec) witness EofRecord

  function HighByte(x: nat): Byte
    requires x < 0x1_0000
  {
    x / 0x100
  }

  function LowByte(x: nat): Byte {
    x % 0x100
  }

  /** Byte count, address, record type and data. */
  function Body(rec: GoodRecord): seq<Byte>
  {
    match rec
    case DataRecord(offset, bytes) => [|bytes|, HighByte(offset), LowByte(offset), 0] + bytes
    case BaseRecord(upper) => [2, 0, 0, 4, HighByte(upper), LowByte(upper)]
    case EofRecord => [0, 0, 0, 1]
  }

  function CheckSum(bs: seq<Byte>): Byte {
    (0x100 - Sum(bs) % 0x100) % 0x100
  }

  function Bytes(rec: GoodRecord): seq<Byte>
  {
    Body(rec) + [CheckSum(Body(rec))]
  }

  function HexText(bs: seq<Byte>): string {
    seq(2 * |bs|, j requires 0 <= j < 2 * |bs| => HexChar(if j % 2 == 0 then bs[j / 2] / 16 else bs[j / 2] % 16))
  }

  function Line(bs: seq<Byte>): string {
    ":" + HexText(bs)
  }

  function Print(rec: GoodRecord): string
  {
    Line(Bytes(rec))
  }

  lemma TextAt(bs: seq<Byte>, i: nat)
    requires i < |bs|
    ensures |Line(bs)| == 1 + 2 * |bs|
    ensures Line(bs)[1 + 2 * i] == HexChar(bs[i] / 16) && Line(bs)[2 + 2 * i] == HexChar(bs[i] % 16)
  {
    hide HexChar;
    var j := 2 * i;
    assert j / 2 == i && (j + 1) / 2 == i;
    assert HexText(bs)[j] == HexChar(bs[i] / 16) && HexText(bs)[j + 1] == HexChar(bs[i] % 16);
  }

  /** After the start code come n bytes in hex digits of either case; anything may
      follow. */
  predicate HexLine(line: string, n: nat) {
    && |line| > 2 * n && line[0] == ':'
    && forall j :: 1 <= j <= 2 * n ==> IsHex(line[j])
  }

  function LineBytes(line: string, n: nat): (r: seq<Byte>)
    requires HexLine(line, n)
    ensures |r| == n
  {
    seq<Byte>(n, i requires 0 <= i < n => 16 * HexValue(line[1 + 2 * i]) + HexValue(line[2 + 2 * i]))
  }

  lemma FieldsOfLine(scan: Scan, line: string, n: nat)
    requires ScansHex(scan) && HexLine(line, n)
    ensures Fields(scan, line, n) == LineBytes(line, n)
  {
    hide HexValue, IsHex;
  }

  /** The printer writes such lines. */
  lemma PrintedLine(bs: seq<Byte>)
    ensures HexLine(Line(bs), |bs|) && LineBytes(Line(bs), |bs|) == bs
  {
    LineLength(bs);
    hide Line, HexText;
    forall j | 1 <= j <= 2 * |bs| ensures IsHex(Line(bs)[j]) {
      TextAt(bs, (j - 1) / 2);
      assert j == 1 + 2 * ((j - 1) / 2) || j == 2 + 2 * ((j - 1) / 2);
    }
    forall i | 0 <= i < |bs| ensures LineBytes(Line(bs), |bs|)[i] == bs[i] {
      TextAt(bs, i);
    }
  }

  lemma LineLength(bs: seq<Byte>)
    ensures |Line(bs)| == 1 + 2 * |bs| && Line(bs)[0] == ':'
  {}

  lemma BytesSumToZero(bs: seq<Byte>)
    ensures Sums(bs + [CheckSum(bs)])
  {
    assert (bs + [CheckSum(bs)])[..|bs|] == bs;
  }

  function Both(hi: nat, lo: nat): nat {
    0x100 * hi + lo
  }

  lemma PairAdds(hi: Byte, lo: Byte)
    ensures Pair(hi, lo) == Both(hi, lo)
  {
    hide Or, Pow2;
    PowValues();
    OrAdds(hi, lo, 8);
  }

  lemma BaseShift(upper: nat)
    requires upper < 0x1_0000
    ensures Shl(upper, 16) == upper * 0x1_0000
  {
    hide Pow2;
    PowValues();
  }

  function Meaning(rec: GoodRecord): Parsed
  {
    match rec
    case DataRecord(offset, bytes) => Data(offset, bytes)
    case BaseRecord(upper) => Base(upper * 0x1_0000)
    case EofRecord => EndOfFile
  }

  /** What the bytes of a line say. */
  function Decoded(bs: seq<Byte>): Parsed
    requires |bs| >= 5 && |bs| - 5 == bs[0]
  {
    var n: nat, addr := bs[0], Both(bs[1], bs[2]);
    match bs[3]
    case 0 => if n > 0 && Sums(bs) then Data(addr, bs[4..4 + n]) else Bad
    case 1 => if Sums(bs[..4] + bs[4 + n..]) then EndOfFile else Bad
    case 4 => if n == 2 && addr == 0 && Sums(bs) then Base(Both(bs[4], bs[5]) * 0x1_0000) else Bad
    case _ => Bad
  }

  lemma InterpretBytes(bs: seq<Byte>)
    requires |bs| >= 5 && bs[0] <= 16 && |bs| - 5 == bs[0]
    ensures Interpret(bs) == Decoded(bs)
  {
    hide Pair, Sums;
    PairAdds(bs[1], bs[2]);
    if bs[0] == 2 {
      PairAdds(bs[4], bs[5]);
      BaseShift(Both(bs[4], bs[5]));
    }
  }

  /** A line of hex digits, of either case, is read by its bytes alone, and what
      follows them does not matter. A byte count above 16 is refused. */
  lemma ParseHex(scan: Scan, line: string, n: Byte)
    requires ScansHex(scan) && HexLine(line, n + 5) && LineBytes(line, n + 5)[0] == n
    ensures ParseLine(scan, line) == if n > 16 then Bad else Decoded(LineBytes(line, n + 5))
  {
    hide Sums, ScansHex, Field, Interpret, Decoded, LineBytes;
    FirstField(scan, line, n + 5);
    FieldsOfLine(scan, line, n + 5);
    if n <= 16 {
      InterpretBytes(LineBytes(line, n + 5));
    }
  }

  lemma FirstField(scan: Scan, line: string, n: nat)
    requires ScansHex(scan) && HexLine(line, n) && n > 0
    ensures Field(scan, line, 1) == LineBytes(line, n)[0]
  {
    hide IsHex, HexValue;
  }

  lemma ParsePrinted(scan: Scan, bs: seq<Byte>)
    requires ScansHex(scan) && |bs| >= 5 && |bs| - 5 == bs[0] <= 16
    ensures ParseLine(scan, Line(bs)) == Decoded(bs)
  {
    hide Line, HexLine, LineBytes, ScansHex, Decoded, ParseLine;
    PrintedLine(bs);
    ParseHex(scan, Line(bs), bs[0]);
  }

  lemma BytesShape(rec: GoodRecord)
    ensures var bs := Bytes(rec);
            && |bs| >= 5 && |bs| - 5 == bs[0] <= 16
            && match rec
               case DataRecord(offset, bytes) =>
                 bs[0] == |bytes| > 0 && bs[3] == 0 && Both(bs[1], bs[2]) == offset && bs[4..4 + |bytes|] == bytes
               case BaseRecord(upper) => bs[0] == 2 && bs[3] == 4 && Both(bs[1], bs[2]) == 0
                 && Both(bs[4], bs[5]) == upper
               case EofRecord => bs[0] == 0 && bs[3] == 1 && bs[..4] + bs[4..] == bs
    ensures Sums(Bytes(rec))
  {
    hide CheckSum, Sums, Sum, HighByte, LowByte, Both;
    BytesSumToZero(Body(rec));
    match rec
    case DataRecord(offset, bytes) =>
      SplitBytes(offset);
    case BaseRecord(upper) =>
      SplitBytes(upper);
      NoBytes();
    case EofRecord =>
  }

  lemma SplitBytes(x: nat)
    requires x < 0x1_0000
    ensures Both(HighByte(x), LowByte(x)) == x
  {}

  lemma NoBytes()
    ensures Both(0, 0) == 0
  {}

  /** Reading inverts printing. */
  lemma RoundTrip(scan: Scan, rec: GoodRecord)
    requires ScansHex(scan)
    ensures ParseLine(scan, Print(rec)) == Meaning(rec)
  {
    hide ParseLine, Line, ScansHex, Bytes, Sums, Both;
    BytesShape(rec);
    ParsePrinted(scan, Bytes(rec));
  }

  lemma {:induction false} SumUpdate(ws: seq<nat>, k: nat, w: nat)
    requires k < |ws|
    ensures Sum(ws[k := w]) == Sum(ws) - ws[k] + w
    decreases |ws|
  {
    var n := |ws| - 1;
    if k < n {
      SumUpdate(ws[..n], k, w);
      assert ws[k := w][..n] == ws[..n][k := w];
    } else {
      assert ws[k := w][..n] == ws[..n];
    }
  }

  /** The check sum catches any one wrong byte of a data or address record, other
      than the byte count and the record type. */
  lemma OneWrongByte(scan: Scan, rec: GoodRecord, k: nat, b: Byte)
    requires ScansHex(scan) && !rec.EofRecord?
    requires 0 < k < |Bytes(rec)| && k != 3 && b != Bytes(rec)[k]
    ensures ParseLine(scan, Line(Bytes(rec)[k := b])).Bad?
  {
    hide ParseLine, Line, ScansHex, Bytes, Sum, Both;
    var bs := Bytes(rec);
    BytesShape(rec);
    SumUpdate(bs, k, b);
    ParsePrinted(scan, bs[k := b]);
  }

  lemma {:induction false} SumConcat(a: seq<nat>, b: seq<nat>)
    ensures Sum(a + b) == Sum(a) + Sum(b)
    decreases |b|
  {
    if b == [] {
      assert a + b == a;
    } else {
      SumConcat(a, b[..|b| - 1]);
      assert (a + b)[..|a + b| - 1] == a + b[..|b| - 1];
    }
  }

  /** An End Of File record is accepted without its data being summed: its bytes add
      up to 0 modulo 256 exactly if its data do. */
  lemma EndOfFileSums(bs: seq<Byte>)
    requires |bs| >= 5 && |bs| - 5 == bs[0] && Decoded(bs).EndOfFile?
    ensures Sums(bs) <==> Sums(bs[4..|bs| - 1])
  {
    var n := |bs| - 5;
    var head, data, check := bs[..4], bs[4..4 + n], bs[4 + n..];
    hide Sum;
    SumConcat(head, check);
    SumConcat(head, data);
    SumConcat(head + data, check);
    assert bs == head + data + check;
    ModAdd(Sum(head) + Sum(check), Sum(data));
  }

  /** An End Of File record with a data byte that is accepted though its bytes add up
      to 0x101. */
  lemma EndOfFileUnsummed(scan: Scan)
    requires ScansHex(scan)
    ensures var bs := [1, 0, 0, 1, 1, 0xFE];
            ParseLine(scan, Line(bs)) == EndOfFile && Sum(bs) == 0x101
  {
    hide ParseLine, Line, Sum, ScansHex;
    var bs: seq<Byte> := [1, 0, 0, 1, 1, 0xFE];
    SumFive(1, 0, 0, 1, 1);
    SumSnoc([1, 0, 0, 1, 1], 0xFE);
    assert bs == [1, 0, 0, 1, 1] + [0xFE];
    SumFive(1, 0, 0, 1, 0xFE);
    assert bs[..4] + bs[5..] == [1, 0, 0, 1, 0xFE];
    ParsePrinted(scan, bs);
  }

  lemma SumSnoc(ws: seq<nat>, w: nat)
    ensures Sum(ws + [w]) == Sum(ws) + w
  {
    assert (ws + [w])[..|ws|] == ws;
  }

  lemma SumFive(a: nat, b: nat, c: nat, d: nat, e: nat)
    ensures Sum([a, b, c, d, e]) == a + b + c + d + e
  {
    SumSnoc([], a);
    SumSnoc([a], b);
    SumSnoc([a, b], c);
    SumSnoc([a, b, c], d);
    SumSnoc([a, b, c, d], e);
    assert [] + [a] == [a] && [a] + [b] == [a, b] && [a, b] + [c] == [a, b, c];
    assert [a, b, c] + [d] == [a, b, c, d] && [a, b, c, d] + [e] == [a, b, c, d, e];
  }
}
