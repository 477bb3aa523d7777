/**
 * The bytecode instruction codec of src/code.ts: the opcode table, the
 * big-endian operand encoder `make`, the decoder `readOperands` and the
 * disassembler `stringifyInstructions`.
 */
module Code {
  import opened Wrappers
  import Text

  type Byte = b: int | 0 <= b < 256

  /** A digit of a hexadecimal numeral. */
  type Nibble = d: int | 0 <= d < 16

  /** Opcodes, numbered in the order of their declaration. */
  const OpConstant: Byte := 0
  const OpAdd: Byte := 1
  const OpPop: Byte := 2
  const OpSub: Byte := 3
  const OpMul: Byte := 4
  const OpDiv: Byte := 5
  const OpTrue: Byte := 6
  const OpFalse: Byte := 7
  const OpNull: Byte := 8
  const OpEqual: Byte := 9
  const OpNotEqual: Byte := 10
  const OpGreaterThan: Byte := 11
  const OpMinus: Byte := 12
  const OpBang: Byte := 13
  const OpJumpNotTruthy: Byte := 14
  const OpJump: Byte := 15
  const OpGetGlobal: Byte := 16
  const OpSetGlobal: Byte := 17
  const OpArray: Byte := 18
  const OpHash: Byte := 19
  const OpIndex: Byte := 20

  /** An opcode's printed name and the byte width of each of its operands. */
  datatype Definition = Definition(name: string, operandWidths: seq<int>)

  /** The opcodes' own identifiers: the name the table gives each declared opcode. */
  function OpcodeName(op: int): (name: string)
    requires 0 <= op <= OpIndex
    ensures |name| > 2 && name[..2] == "Op"
  {
    if op == OpConstant then "OpConstant"
    else if op == OpAdd then "OpAdd"
    else if op == OpPop then "OpPop"
    else if op == OpSub then "OpSub"
    else if op == OpMul then "OpMul"
    else if op == OpDiv then "OpDiv"
    else if op == OpTrue then "OpTrue"
    else if op == OpFalse then "OpFalse"
    else if op == OpNull then "OpNull"
    else if op == OpEqual then "OpEqual"
    else if op == OpNotEqual then "OpNotEqual"
    else if op == OpGreaterThan then "OpGreaterThan"
    else if op == OpMinus then "OpMinus"
    else if op == OpBang then "OpBang"
    else if op == OpJumpNotTruthy then "OpJumpNotTruthy"
    else if op == OpJump then "OpJump"
    else if op == OpGetGlobal then "OpGetGlobal"
    else if op == OpSetGlobal then "OpSetGlobal"
    else if op == OpArray then "OpArray"
    else if op == OpHash then "OpHash"
    else "OpIndex"
  }

  /** The opcodes with one two-byte operand; every other opcode has none. */
  predicate HasOperand(op: int) {
    op == OpConstant || op == OpJumpNotTruthy || op == OpJump || op == OpGetGlobal
    || op == OpSetGlobal || op == OpArray || op == OpHash
  }

  /** The opcode table: every declared opcode, named after itself, with its operand widths. */
  const Definitions: map<int, Definition> :=
    map op | 0 <= op <= OpIndex :: Definition(OpcodeName(op), if HasOperand(op) then [2] else [])

  /** `lookup`: the definition of an opcode, or the error for an undefined one. */
  function Lookup(op: int): (r: Result<Definition>)
    ensures r.Ok? <==> 0 <= op <= OpIndex
    ensures r.Ok? ==> r.value == Definitions[op]
    ensures r.Err? ==> r.message == "opcode " + Text.IntToString(op) + " undefined"
  {
    if op in Definitions then Ok(Definitions[op])
    else Err("opcode " + Text.IntToString(op) + " undefined")
  }

  function Pow(b: nat, e: nat): nat {
    if e == 0 then 1 else b * Pow(b, e - 1)
  }

  /** The number a sequence of bytes denotes, most significant byte first. */
  function BigEndian(bs: seq<Byte>): nat {
    if bs == [] then 0 else 256 * BigEndian(bs[..|bs| - 1]) + bs[|bs| - 1]
  }

  /** `readUint16`: the big-endian value of the first two bytes; later bytes are ignored. */
  function ReadUint16(nums: seq<Byte>): (r: Result<nat>)
    ensures r.Err? <==> |nums| < 2
    ensures r.Err? ==> r.message == "unable to read Uint16 from array smaller than 2"
    ensures r.Ok? ==> r.value == BigEndian(nums[..2]) && r.value < 65536
  {
    if |nums| < 2 then Err("unable to read Uint16 from array smaller than 2")
    else
      BigEndianPair(nums[..2]);
      var v: nat := 256 * (nums[0] as int) + nums[1];
      Ok(v)
  }

  lemma BigEndianPair(bs: seq<Byte>)
    requires |bs| == 2
    ensures BigEndian(bs) == 256 * (bs[0] as int) + bs[1]
  {
    assert BigEndian(bs[..1]) == bs[0] by {
      assert bs[..1][..0] == [];
    }
  }

  /** `num.toString(16)` as digits, most significant first, with no leading zero. */
  function HexDigits(n: nat): (ds: seq<Nibble>)
    ensures |ds| >= 1
  {
    if n < 16 then [n] else HexDigits(n / 16) + [n % 16]
  }

  /** The number a sequence of hexadecimal digits denotes. */
  function Base16(ds: seq<Nibble>): nat {
    if ds == [] then 0 else 16 * Base16(ds[..|ds| - 1]) + ds[|ds| - 1]
  }

  /** `padStart(count, '0')` on a hexadecimal numeral. */
  function PadNibbles(ds: seq<Nibble>, count: nat): seq<Nibble> {
    if |ds| < count then seq(count - |ds|, _ => 0) + ds else ds
  }

  /** `Buffer.from(hex, 'hex')`: each pair of digits becomes a byte; a lone last digit is dropped. */
  function PairNibbles(ds: seq<Nibble>): (bs: seq<Byte>)
    ensures |bs| == |ds| / 2
  {
    if |ds| < 2 then [] else var b: Byte := 16 * (ds[0] as int) + ds[1]; [b] + PairNibbles(ds[2..])
  }

  /**
   * `numToHexBytes(num, width)`: the hexadecimal numeral of `num`, padded to
   * `2 * width` digits and read back as bytes. In range it is exactly `width`
   * big-endian bytes; an oversized value is not truncated.
   */
  function NumToHexBytes(num: nat, width: nat): (r: seq<Byte>)
    ensures num < Pow(256, width) ==> |r| == width && BigEndian(r) == num
    ensures |r| >= width
  {
    var ds := HexDigits(num);
    var padded := PadNibbles(ds, 2 * width);
    HexBytesFacts(num, width);
    PairNibbles(padded)
  }

  lemma {:induction false} HexDigitsValue(n: nat)
    ensures Base16(HexDigits(n)) == n
  {
    if n >= 16 {
      var ds := HexDigits(n);
      assert ds[..|ds| - 1] == HexDigits(n / 16);
      HexDigitsValue(n / 16);
    }
  }

  lemma {:induction false} HexDigitsLength(n: nat, k: nat)
    requires 1 <= k && n < Pow(16, k)
    ensures |HexDigits(n)| <= k
  {
    if n >= 16 {
      assert Pow(16, 1) == 16;
      assert k >= 2;
      assert n / 16 < Pow(16, k - 1);
      HexDigitsLength(n / 16, k - 1);
    }
  }

  lemma {:induction false} Base16Zeros(m: nat)
    ensures Base16(seq(m, _ => 0)) == 0
  {
    if m > 0 {
      assert seq(m, _ => 0)[..m - 1] == seq(m - 1, _ => 0);
      Base16Zeros(m - 1);
    }
  }

  lemma {:induction false} Base16LeadingZeros(m: nat, ds: seq<Nibble>)
    ensures Base16(seq(m, _ => 0) + ds) == Base16(ds)
  {
    var zs: seq<Nibble> := seq(m, _ => 0);
    if ds == [] {
      assert zs + ds == zs;
      Base16Zeros(m);
    } else {
      var front := ds[..|ds| - 1];
      assert (zs + ds)[..|zs + ds| - 1] == zs + front;
      Base16LeadingZeros(m, front);
    }
  }

  lemma {:induction false} PairNibblesSnoc(ds: seq<Nibble>, a: Nibble, b: Nibble)
    requires |ds| % 2 == 0
    ensures PairNibbles(ds + [a, b]) == PairNibbles(ds) + [16 * a + b]
  {
    if |ds| >= 2 {
      assert (ds + [a, b])[2..] == ds[2..] + [a, b];
      PairNibblesSnoc(ds[2..], a, b);
    } else {
      assert ds == [];
    }
  }

  lemma {:induction false} PairNibblesValue(ds: seq<Nibble>)
    requires |ds| % 2 == 0
    ensures BigEndian(PairNibbles(ds)) == Base16(ds)
    decreases |ds|
  {
    if |ds| >= 2 {
      var front := ds[..|ds| - 2];
      var a, b := ds[|ds| - 2], ds[|ds| - 1];
      assert ds == front + [a, b];
      PairNibblesSnoc(front, a, b);
      PairNibblesValue(front);
      var bs := PairNibbles(ds);
      assert bs[..|bs| - 1] == PairNibbles(front);
      assert ds[..|ds| - 1] == front + [a];
      assert (front + [a])[..|front|] == front;
    }
  }

  lemma {:induction false} PowSquare(w: nat)
    ensures Pow(256, w) == Pow(16, 2 * w)
  {
    if w > 0 {
      PowSquare(w - 1);
      assert Pow(16, 2 * w) == 16 * (16 * Pow(16, 2 * w - 2));
    }
  }

  lemma {:induction false} HexBytesFacts(num: nat, width: nat)
    ensures |PairNibbles(PadNibbles(HexDigits(num), 2 * width))| >= width
    ensures num < Pow(256, width) ==>
      |PairNibbles(PadNibbles(HexDigits(num), 2 * width))| == width
      && BigEndian(PairNibbles(PadNibbles(HexDigits(num), 2 * width))) == num
  {
    var ds := HexDigits(num);
    var padded := PadNibbles(ds, 2 * width);
    if num < Pow(256, width) {
      HexDigitsValue(num);
      if width == 0 {
        assert num == 0;
      } else {
        PowSquare(width);
        HexDigitsLength(num, 2 * width);
        assert |padded| == 2 * width;
        Base16LeadingZeros(2 * width - |ds|, ds);
        PairNibblesValue(padded);
      }
    }
  }

  /** The message `make` throws for an operand it cannot encode. */
  function MakeWidthError(width: string): string {
    "width " + width + " not yet implemented in \"make\""
  }

  /** The width as the message of a throwing `make` prints it: a missing width is `undefined`. */
  function WidthText(widths: seq<int>, index: nat): string {
    if index < |widths| then Text.IntToString(widths[index]) else "undefined"
  }

  /** Every width from `lo` up to `hi` exists and is 2. */
  predicate AllTwo(widths: seq<int>, lo: nat, hi: nat) {
    lo >= hi || (hi <= |widths| && forall j :: lo <= j < hi ==> widths[j] == 2)
  }

  /** The first operand, at or after `index`, that `make` cannot encode: its width is not 2 or missing. */
  function FirstUnencodable(widths: seq<int>, count: nat, index: nat): (r: Option<nat>)
    requires index <= count
    ensures r.Some? ==> index <= r.value < count && (r.value >= |widths| || widths[r.value] != 2)
    ensures r.Some? ==> AllTwo(widths, index, r.value)
    ensures r.None? ==> AllTwo(widths, index, count)
    decreases count - index
  {
    if index == count then None
    else if index >= |widths| || widths[index] != 2 then Some(index)
    else
      FirstUnencodable(widths, count, index + 1)
  }

  /**
   * What `make` returns: the empty sequence for an opcode with no
   * definition, the width error for the first operand whose width is not 2,
   * and otherwise the opcode followed by the encoding of the LAST operand
   * only (each operand's bytes replace the previous operand's).
   */
  function MakeSpec(op: int, operands: seq<nat>): Result<seq<Byte>> {
    if op !in Definitions then Ok([])
    else
      var widths := Definitions[op].operandWidths;
      match FirstUnencodable(widths, |operands|, 0)
      case Some(i) => Err(MakeWidthError(WidthText(widths, i)))
      case None => Ok([op as Byte] + (if operands == [] then [] else NumToHexBytes(operands[|operands| - 1], 2)))
  }

  /** `make`, statement by statement: the forEach over operands becomes a loop. */
  method Make(op: int, operands: seq<nat>) returns (r: Result<seq<Byte>>)
    ensures r == MakeSpec(op, operands)
  {
    if op !in Definitions {
      return Ok([]);
    }
    var def := Definitions[op];
    var res: seq<Byte> := [];
    var index := 0;
    while index < |operands|
      invariant index <= |operands|
      invariant FirstUnencodable(def.operandWidths, |operands|, 0) == FirstUnencodable(def.operandWidths, |operands|, index)
      invariant res == if index == 0 then [] else NumToHexBytes(operands[index - 1], 2)
    {
      if index < |def.operandWidths| && def.operandWidths[index] == 2 {
        res := NumToHexBytes(operands[index], 2);
      } else {
        return Err(MakeWidthError(WidthText(def.operandWidths, index)));
      }
      index := index + 1;
    }
    return Ok([op as Byte] + res);
  }

  /** `instructions.slice(offset)`. */
  function Drop(ins: seq<Byte>, offset: nat): seq<Byte> {
    if offset <= |ins| then ins[offset..] else []
  }

  /** The operands of widths[index..] and the bytes they take, read from `ins` at offset 2 * index. */
  function ReadOperandsFrom(widths: seq<int>, ins: seq<Byte>, index: nat): Result<(seq<nat>, nat)>
    decreases |widths| - index
  {
    if index >= |widths| then Ok(([], 0))
    else if widths[index] != 2 then Err("width " + Text.IntToString(widths[index]) + " not unimplemented in readOperands")
    else match ReadUint16(Drop(ins, 2 * index))
      case Err(m) => Err(m)
      case Ok(v) =>
        match ReadOperandsFrom(widths, ins, index + 1)
        case Err(m) => Err(m)
        case Ok(rest) => Ok(([v] + rest.0, widths[index] + rest.1))
  }

  /** What `readOperands(def, instructions)` returns: the operands and the offset after them. */
  function ReadOperandsSpec(def: Definition, ins: seq<Byte>): Result<(seq<nat>, nat)> {
    ReadOperandsFrom(def.operandWidths, ins, 0)
  }

  /** The sum of a list of widths. */
  function Sum(ws: seq<int>): int {
    if ws == [] then 0 else ws[0] + Sum(ws[1..])
  }

  /** `whole` is the operands `done` followed by those of `rest`, failing exactly when `rest` fails. */
  ghost predicate OperandsPrefix(done: seq<nat>, doneWidth: nat, whole: Result<(seq<nat>, nat)>, rest: Result<(seq<nat>, nat)>) {
    match rest
    case Err(m) => whole == Err(m)
    case Ok(x) => whole.Ok? && whole.value.0 == done + x.0 && whole.value.1 == doneWidth + x.1
  }

  lemma ReadOperandsStep(widths: seq<int>, ins: seq<Byte>, index: nat)
    requires index < |widths| && widths[index] == 2 && ReadUint16(Drop(ins, 2 * index)).Ok?
    ensures OperandsPrefix([ReadUint16(Drop(ins, 2 * index)).value], 2,
      ReadOperandsFrom(widths, ins, index), ReadOperandsFrom(widths, ins, index + 1))
  {
  }

  lemma OperandsPrefixTrans(a: seq<nat>, wa: nat, b: seq<nat>, wb: nat,
                            whole: Result<(seq<nat>, nat)>, mid: Result<(seq<nat>, nat)>, rest: Result<(seq<nat>, nat)>)
    requires OperandsPrefix(a, wa, whole, mid) && OperandsPrefix(b, wb, mid, rest)
    ensures OperandsPrefix(a + b, wa + wb, whole, rest)
  {
    if rest.Ok? {
      assert (a + b) + rest.value.0 == a + (b + rest.value.0);
    }
  }

  /** `readOperands`: fills one operand per width while advancing the offset. */
  method ReadOperands(def: Definition, ins: seq<Byte>) returns (r: Result<(seq<nat>, nat)>)
    ensures r == ReadOperandsSpec(def, ins)
  {
    ghost var whole := ReadOperandsSpec(def, ins);
    var operands: seq<nat> := [];
    var offset: nat := 0;
    var index := 0;
    while index < |def.operandWidths|
      invariant index <= |def.operandWidths| && |operands| == index && offset == 2 * index
      invariant OperandsPrefix(operands, offset, whole, ReadOperandsFrom(def.operandWidths, ins, index))
    {
      var width := def.operandWidths[index];
      if width != 2 {
        assert ReadOperandsFrom(def.operandWidths, ins, index) == Err("width " + Text.IntToString(width) + " not unimplemented in readOperands");
        return Err("width " + Text.IntToString(width) + " not unimplemented in readOperands");
      }
      var v := ReadUint16(Drop(ins, offset));
      if v.Err? {
        assert ReadOperandsFrom(def.operandWidths, ins, index) == Err(v.message);
        return Err(v.message);
      }
      ReadOperandsStep(def.operandWidths, ins, index);
      OperandsPrefixTrans(operands, offset, [v.value], 2, whole,
        ReadOperandsFrom(def.operandWidths, ins, index), ReadOperandsFrom(def.operandWidths, ins, index + 1));
      operands := operands + [v.value];
      offset := offset + width;
      index := index + 1;
    }
    assert operands + [] == operands;
    assert ReadOperandsFrom(def.operandWidths, ins, index) == Ok(([], 0));
    return Ok((operands, offset));
  }

  lemma {:induction false} SumOfTwos(ws: seq<int>)
    requires forall j :: 0 <= j < |ws| ==> ws[j] == 2
    ensures Sum(ws) == 2 * |ws|
  {
    if ws != [] { SumOfTwos(ws[1..]); }
  }

  /** A successful `readOperands` returns one operand per width and consumes the sum of the widths. */
  lemma {:induction false} ReadOperandsShape(widths: seq<int>, ins: seq<Byte>, index: nat)
    requires index <= |widths|
    requires ReadOperandsFrom(widths, ins, index).Ok?
    ensures |ReadOperandsFrom(widths, ins, index).value.0| == |widths| - index
    ensures ReadOperandsFrom(widths, ins, index).value.1 == Sum(widths[index..])
    ensures forall j :: index <= j < |widths| ==> widths[j] == 2
    decreases |widths| - index
  {
    if index < |widths| {
      ReadOperandsShape(widths, ins, index + 1);
      assert widths[index..][1..] == widths[index + 1..];
    }
  }

  /** `stringifyOperand`: an opcode's name, followed by its operand when it has exactly one. */
  function StringifyOperand(def: Definition, operands: seq<nat>): (r: Result<string>)
    ensures r.Ok? <==> |operands| == |def.operandWidths| <= 1
    ensures r.Ok? && operands == [] ==> r.value == def.name
    ensures r.Ok? && |operands| == 1 ==> r.value == def.name + " " + Text.NatToString(operands[0])
  {
    var count := |def.operandWidths|;
    if |operands| != count then
      Err("mismatched operand lengths: " + Text.NatToString(|operands|) + " !== " + Text.NatToString(count))
    else if count == 0 then Ok(def.name)
    else if count == 1 then Ok(def.name + " " + Text.NatToString(operands[0]))
    else Err("Stringify not ipmlemented: " + def.name)
  }

  /** One line of a listing: the offset padded to four digits, a space, the instruction. */
  function ListingLine(offset: nat, text: string): string {
    Text.PadStart(Text.NatToString(offset), 4, '0') + " " + text
  }

  /** The listing lines of the instructions that start at offset `i`, or the first error. */
  function DisassembleFrom(ins: seq<Byte>, i: nat): Result<seq<string>>
    decreases |ins| - i
  {
    if i >= |ins| then Ok([])
    else match Lookup(ins[i])
      case Err(m) => Err(m)
      case Ok(def) =>
        match ReadOperandsSpec(def, ins[i + 1..])
        case Err(m) => Err(m)
        case Ok(read) =>
          match StringifyOperand(def, read.0)
          case Err(m) => Err(m)
          case Ok(text) =>
            match DisassembleFrom(ins, i + 1 + read.1)
            case Err(m) => Err(m)
            case Ok(lines) => Ok([ListingLine(i, text)] + lines)
  }

  /** `stringifyInstructions`: the listing lines joined by newlines. */
  method StringifyInstructions(ins: seq<Byte>) returns (r: Result<string>)
    ensures DisassembleFrom(ins, 0).Err? ==> r == Err(DisassembleFrom(ins, 0).message)
    ensures DisassembleFrom(ins, 0).Ok? ==> r == Ok(Text.Join(DisassembleFrom(ins, 0).value, "\n"))
  {
    var res: seq<string> := [];
    var i := 0;
    assert DisassembleFrom(ins, 0).Ok? ==> res + DisassembleFrom(ins, 0).value == DisassembleFrom(ins, 0).value;
    while i < |ins|
      invariant ResultPrefix(res, DisassembleFrom(ins, 0), DisassembleFrom(ins, i))
      decreases |ins| - i
    {
      var def := Lookup(ins[i]);
      if def.Err? {
        return Err(def.message);
      }
      var read := ReadOperands(def.value, ins[i + 1..]);
      if read.Err? {
        return Err(read.message);
      }
      var text := StringifyOperand(def.value, read.value.0);
      if text.Err? {
        return Err(text.message);
      }
      var line := ListingLine(i, text.value);
      var next := i + 1 + read.value.1;
      DisassembleStep(ins, i);
      ResultPrefixTrans(res, [line], DisassembleFrom(ins, 0), DisassembleFrom(ins, i), DisassembleFrom(ins, next));
      assert ResultPrefix(res + [line], DisassembleFrom(ins, 0), DisassembleFrom(ins, next));
      res := res + [line];
      i := next;
    }
    assert res + [] == res;
    return Ok(Text.Join(res, "\n"));
  }

  lemma DisassembleStep(ins: seq<Byte>, i: nat)
    requires i < |ins| && Lookup(ins[i]).Ok?
    requires ReadOperandsSpec(Lookup(ins[i]).value, ins[i + 1..]).Ok?
    requires StringifyOperand(Lookup(ins[i]).value, ReadOperandsSpec(Lookup(ins[i]).value, ins[i + 1..]).value.0).Ok?
    ensures ResultPrefix(
      [ListingLine(i, StringifyOperand(Lookup(ins[i]).value, ReadOperandsSpec(Lookup(ins[i]).value, ins[i + 1..]).value.0).value)],
      DisassembleFrom(ins, i),
      DisassembleFrom(ins, i + 1 + ReadOperandsSpec(Lookup(ins[i]).value, ins[i + 1..]).value.1))
  {
  }

  lemma ResultPrefixTrans(a: seq<string>, b: seq<string>, whole: Result<seq<string>>, mid: Result<seq<string>>, rest: Result<seq<string>>)
    requires ResultPrefix(a, whole, mid) && ResultPrefix(b, mid, rest)
    ensures ResultPrefix(a + b, whole, rest)
  {
    if rest.Ok? {
      assert (a + b) + rest.value == a + (b + rest.value);
    }
  }

  /** `whole` is `done` followed by `rest`, failing exactly when `rest` fails, with the same message. */
  ghost predicate ResultPrefix(done: seq<string>, whole: Result<seq<string>>, rest: Result<seq<string>>) {
    match rest
    case Err(m) => whole == Err(m)
    case Ok(lines) => whole == Ok(done + lines)
  }
  /** Two bytes are determined by the number they denote. */
  lemma BigEndianTwoBytes(bs: seq<Byte>)
    requires |bs| == 2
    ensures bs == [BigEndian(bs) / 256, BigEndian(bs) % 256]
  {
    BigEndianPair(bs);
  }

  /** The byte conversions the codec's tests state. */
  lemma NumToHexBytesExamples()
    ensures NumToHexBytes(65534, 2) == [255, 254]
    ensures NumToHexBytes(1, 2) == [0, 1]
    ensures NumToHexBytes(1, 1) == [1]
  {
    assert Pow(256, 2) == 65536 && Pow(256, 1) == 256;
    BigEndianTwoBytes(NumToHexBytes(65534, 2));
    BigEndianTwoBytes(NumToHexBytes(1, 2));
    var one := NumToHexBytes(1, 1);
    assert one[..0] == [];
  }

  /** An operand of 65536 or more is not truncated: its numeral is paired from the front and the bytes after the first two move the rest of the instruction. */
  lemma NumToHexBytesOversized()
    ensures NumToHexBytes(65536, 2) == [16, 0]
    ensures NumToHexBytes(0x10_0000, 2) == [16, 0, 0]
    ensures ReadUint16(NumToHexBytes(65536, 2)) == Ok(4096)
  {
    assert HexDigits(65536) == [1, 0, 0, 0, 0];
    assert HexDigits(0x10_0000) == [1, 0, 0, 0, 0, 0];
  }

  /** `make` of an undefined opcode is empty; of a defined opcode with no operands, the opcode alone. */
  lemma MakeNoOperands(op: int)
    ensures op !in Definitions ==> MakeSpec(op, []) == Ok([])
    ensures op in Definitions ==> MakeSpec(op, []) == Ok([op as Byte])
  {
    if op in Definitions {
      assert [op as Byte] + [] == [op as Byte];
    }
  }

  /** The encoding the codec's test states. */
  lemma MakeExample()
    ensures MakeSpec(OpConstant, [65534]) == Ok([OpConstant, 255, 254])
  {
    NumToHexBytesExamples();
    FirstUnencodableOfTable([2], 1);
    assert Definitions[OpConstant].operandWidths == [2];
    var enc := NumToHexBytes(65534, 2);
    assert enc == [255, 254];
    assert [OpConstant] + enc == [OpConstant, 255, 254];
    assert MakeSpec(OpConstant, [65534]) == Ok([OpConstant] + enc);
  }

  /** An operand `make` can encode exactly: a value below 65536. */
  predicate InRange(operands: seq<nat>) {
    forall k :: 0 <= k < |operands| ==> operands[k] < 65536
  }

  /** With one in-range operand per width, `make` succeeds and the instruction is 1 + the sum of the widths long. */
  lemma MakeLength(op: int, operands: seq<nat>)
    requires op in Definitions && |operands| == |Definitions[op].operandWidths| && InRange(operands)
    ensures MakeSpec(op, operands).Ok?
    ensures |MakeSpec(op, operands).value| == 1 + Sum(Definitions[op].operandWidths)
  {
    assert Pow(256, 2) == 65536;
    FirstUnencodableOfTable(Definitions[op].operandWidths, |operands|);
  }

  /** For a table shape, the first operand `make` cannot encode is the first one past the arity. */
  lemma FirstUnencodableOfTable(widths: seq<int>, count: nat)
    requires widths == [] || widths == [2]
    ensures FirstUnencodable(widths, count, 0) == if count > |widths| then Some(|widths|) else None
  {
    if widths == [2] && count >= 1 {
      assert FirstUnencodable(widths, count, 1) == if count > 1 then Some(1) else None;
    }
  }

  /**
   * For the opcodes of the table, `make` throws exactly when it is given
   * more operands than the opcode has widths; the missing width prints as
   * `undefined`.
   */
  lemma MakeBeyondArity(op: int, operands: seq<nat>)
    requires op in Definitions
    ensures MakeSpec(op, operands).Err? <==> |operands| > |Definitions[op].operandWidths|
    ensures MakeSpec(op, operands).Err? ==> MakeSpec(op, operands).message == MakeWidthError("undefined")
  {
    FirstUnencodableOfTable(Definitions[op].operandWidths, |operands|);
  }

  /** The encoding of each operand in turn: what `make` would return if it kept every operand. */
  function EncodeEach(operands: seq<nat>): seq<Byte> {
    if operands == [] then [] else NumToHexBytes(operands[0], 2) + EncodeEach(operands[1..])
  }

  /**
   * `make` keeps only the last operand's bytes, but no opcode of the table
   * accepts two operands, so whenever it succeeds its result is the opcode
   * followed by the bytes of every operand.
   */
  lemma MakeKeepsEveryOperand(op: int, operands: seq<nat>)
    requires MakeSpec(op, operands).Ok? && op in Definitions
    ensures MakeSpec(op, operands).value == [op as Byte] + EncodeEach(operands)
  {
    MakeBeyondArity(op, operands);
    if |operands| == 1 {
      assert EncodeEach(operands) == NumToHexBytes(operands[0], 2) + EncodeEach([]);
    }
  }

  /**
   * Decoding what `make` encoded gives the operands back and consumes the
   * sum of the widths, whatever bytes follow the instruction.
   */
  lemma {:induction false} MakeReadRoundTrip(op: int, operands: seq<nat>, tail: seq<Byte>)
    requires op in Definitions && |operands| == |Definitions[op].operandWidths| && InRange(operands)
    ensures MakeSpec(op, operands).Ok?
    ensures ReadOperandsSpec(Definitions[op], MakeSpec(op, operands).value[1..] + tail)
         == Ok((operands, Sum(Definitions[op].operandWidths)))
  {
    MakeLength(op, operands);
    FirstUnencodableOfTable(Definitions[op].operandWidths, |operands|);
    var def := Definitions[op];
    var bytes := MakeSpec(op, operands).value[1..] + tail;
    if HasOperand(op) {
      assert def.operandWidths == [2];
      var v := operands[0];
      assert Pow(256, 2) == 65536;
      var enc := NumToHexBytes(v, 2);
      assert bytes == enc + tail;
      assert Drop(bytes, 0)[..2] == enc;
      assert ReadUint16(Drop(bytes, 0)) == Ok(v);
      assert ReadOperandsFrom(def.operandWidths, bytes, 1) == Ok(([], 0));
      assert operands == [v];
      assert ReadOperandsFrom(def.operandWidths, bytes, 0) == Ok(([v] + [], 2 + 0));
      assert [v] + [] == operands;
      assert Sum([2]) == 2 + Sum([]);
    }
  }

  /** The round trip the codec's test states: OpConstant 65535 reads back as [65535] after 2 bytes. */
  lemma ReadOperandsExample()
    ensures MakeSpec(OpConstant, [65535]).Ok?
    ensures ReadOperandsSpec(Definitions[OpConstant], MakeSpec(OpConstant, [65535]).value[1..]) == Ok(([65535], 2))
  {
    MakeReadRoundTrip(OpConstant, [65535], []);
    assert MakeSpec(OpConstant, [65535]).value[1..] + [] == MakeSpec(OpConstant, [65535]).value[1..];
  }

  /** An instruction: an opcode and its operands. */
  datatype Instruction = Instruction(op: int, operands: seq<nat>)

  /** An instruction `make` encodes faithfully: a defined opcode with one in-range operand per width. */
  predicate Encodable(x: Instruction) {
    x.op in Definitions && |x.operands| == |Definitions[x.op].operandWidths| && InRange(x.operands)
  }

  function Encode(x: Instruction): (bs: seq<Byte>)
    requires Encodable(x)
    ensures |bs| == 1 + Sum(Definitions[x.op].operandWidths)
  {
    MakeLength(x.op, x.operands);
    MakeSpec(x.op, x.operands).value
  }

  /** The bytes of a program: the encodings of its instructions, one after the other. */
  function Assemble(xs: seq<Instruction>): seq<Byte>
    requires forall k :: 0 <= k < |xs| ==> Encodable(xs[k])
  {
    if xs == [] then [] else Encode(xs[0]) + Assemble(xs[1..])
  }

  /** How an instruction is printed: its name, then its operand if it has one. */
  function InstructionText(x: Instruction): string
    requires Encodable(x)
  {
    if x.operands == [] then Definitions[x.op].name
    else Definitions[x.op].name + " " + Text.NatToString(x.operands[0])
  }

  /** The expected listing of a program whose first instruction is at `offset`. */
  function Listing(xs: seq<Instruction>, offset: nat): seq<string>
    requires forall k :: 0 <= k < |xs| ==> Encodable(xs[k])
  {
    if xs == [] then []
    else [ListingLine(offset, InstructionText(xs[0]))] + Listing(xs[1..], offset + |Encode(xs[0])|)
  }

  /**
   * Disassembling assembled instructions gives one line per instruction,
   * each at the offset where that instruction starts.
   */
  lemma {:induction false} DisassembleAssemble(pre: seq<Byte>, xs: seq<Instruction>)
    requires forall k :: 0 <= k < |xs| ==> Encodable(xs[k])
    ensures DisassembleFrom(pre + Assemble(xs), |pre|) == Ok(Listing(xs, |pre|))
  {
    var ins := pre + Assemble(xs);
    assert ins[|pre|..] == Assemble(xs);
    DisassembleAssembled(ins, |pre|, xs);
  }

  /** The instructions `xs`, assembled at offset `i` of `ins`, disassemble to their listing from `i` on. */
  lemma {:induction false} DisassembleAssembled(ins: seq<Byte>, i: nat, xs: seq<Instruction>)
    requires forall k :: 0 <= k < |xs| ==> Encodable(xs[k])
    requires i <= |ins| && ins[i..] == Assemble(xs)
    ensures DisassembleFrom(ins, i) == Ok(Listing(xs, i))
    decreases |xs|
  {
    if xs == [] {
      assert |ins[i..]| == 0;
    } else {
      var x, rest := xs[0], xs[1..];
      assert forall k :: 0 <= k < |rest| ==> rest[k] == xs[k + 1];
      var n := |Encode(x)|;
      AssembleCons(xs);
      SplitSuffix(ins, i, Encode(x), Assemble(rest));
      DisassembleAssembled(ins, i + n, rest);
      var lines := Listing(rest, i + n);
      DisassembleOne(ins, i, x, lines);
      ListingCons(xs, i);
    }
  }

  lemma AssembleCons(xs: seq<Instruction>)
    requires forall k :: 0 <= k < |xs| ==> Encodable(xs[k])
    requires xs != []
    ensures Assemble(xs) == Encode(xs[0]) + Assemble(xs[1..])
  {
  }

  lemma ListingCons(xs: seq<Instruction>, i: nat)
    requires forall k :: 0 <= k < |xs| ==> Encodable(xs[k])
    requires xs != []
    ensures Listing(xs, i) == [ListingLine(i, InstructionText(xs[0]))] + Listing(xs[1..], i + |Encode(xs[0])|)
  {
  }

  /** One encoded instruction at offset `i` disassembles to its own line, followed by the lines after it. */
  lemma {:induction false} DisassembleOne(ins: seq<Byte>, i: nat, x: Instruction, lines: seq<string>)
    requires Encodable(x) && i + |Encode(x)| <= |ins| && ins[i..i + |Encode(x)|] == Encode(x)
    requires DisassembleFrom(ins, i + |Encode(x)|) == Ok(lines)
    ensures DisassembleFrom(ins, i) == Ok([ListingLine(i, InstructionText(x))] + lines)
  {
    var next := i + |Encode(x)|;
    ReadEncoded(ins, i, x);
    StringifyInstruction(x);
    DisassembleCons(ins, i, Definitions[x.op], x.operands, |Encode(x)| - 1, InstructionText(x), next, lines);
  }

  /** An encodable instruction's operands are printed as its text. */
  lemma StringifyInstruction(x: Instruction)
    requires Encodable(x)
    ensures StringifyOperand(Definitions[x.op], x.operands) == Ok(InstructionText(x))
  {
  }

  /** Where the definition, the operands, their text and the rest all succeed, the listing is the line at i and then the rest. */
  lemma DisassembleCons(ins: seq<Byte>, i: nat, def: Definition, operands: seq<nat>, width: nat, text: string, next: nat, lines: seq<string>)
    requires i < |ins| && Lookup(ins[i]) == Ok(def)
    requires ReadOperandsSpec(def, ins[i + 1..]) == Ok((operands, width))
    requires StringifyOperand(def, operands) == Ok(text)
    requires next == i + 1 + width && DisassembleFrom(ins, next) == Ok(lines)
    ensures DisassembleFrom(ins, i) == Ok([ListingLine(i, text)] + lines)
  {
  }

  /** At an encoded instruction, the opcode byte looks up its definition and its operands read back. */
  lemma {:induction false} ReadEncoded(ins: seq<Byte>, i: nat, x: Instruction)
    requires Encodable(x) && i + |Encode(x)| <= |ins| && ins[i..i + |Encode(x)|] == Encode(x)
    ensures i < |ins| && Lookup(ins[i]) == Ok(Definitions[x.op])
    ensures ReadOperandsSpec(Definitions[x.op], ins[i + 1..]) == Ok((x.operands, |Encode(x)| - 1))
  {
    var e := Encode(x);
    var tail := ins[i + |e|..];
    assert ins[i] == e[0] == x.op;
    assert ins[i + 1..] == e[1..] + tail;
    MakeReadRoundTrip(x.op, x.operands, tail);
  }

  /** A suffix made of two parts: the first starts the suffix, the second follows it. */
  lemma SplitSuffix(s: seq<Byte>, i: nat, a: seq<Byte>, b: seq<Byte>)
    requires i <= |s| && s[i..] == a + b
    ensures i + |a| <= |s| && s[i..i + |a|] == a && s[i + |a|..] == b
  {
    assert s[i..i + |a|] == (a + b)[..|a|];
    assert s[i + |a|..] == (a + b)[|a|..];
  }

  /** The disassembler throws on an undefined opcode byte. */
  lemma DisassembleUndefined(ins: seq<Byte>, i: nat)
    requires i < |ins| && ins[i] !in Definitions
    ensures DisassembleFrom(ins, i) == Err("opcode " + Text.IntToString(ins[i]) + " undefined")
  {
  }
}
