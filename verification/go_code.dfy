/**
 * The Go instruction codec of t.go: a one-opcode table, `Make` writing
 * into a preallocated byte slice, `ReadOperands`, `fmtInstruction` and the
 * disassembler `Instructions.Bing`. A Go panic is an `Err`.
 */
module GoCode {
  import opened Wrappers
  import Text
  import Code

  type Byte = Code.Byte
  type Definition = Code.Definition

  const OpConstant: Byte := 0

  /** `definitions`: only OpConstant, with one two-byte operand. */
  const Definitions: map<int, Definition> := map[OpConstant := Code.Definition("OpConstant", [2])]

  /** The panic of an index or slice expression out of bounds. */
  const IndexPanic := "runtime error: index out of range"

  /** `Lookup`: the definition of a byte, or the error "opcode N undefined". */
  function Lookup(op: Byte): (r: Result<Definition>)
    ensures r.Ok? <==> op == OpConstant
    ensures r.Ok? ==> r.value.operandWidths == [2]
    ensures r.Err? ==> r.message == "opcode " + Text.NatToString(op) + " undefined"
  {
    if op in Definitions then Ok(Definitions[op])
    else Err("opcode " + Text.NatToString(op) + " undefined")
  }

  /** `ReadUint16` (`binary.BigEndian.Uint16`): the first two bytes, most significant first; it panics on fewer. */
  function ReadUint16(ins: seq<Byte>): (r: Result<nat>)
    ensures r.Err? <==> |ins| < 2
    ensures r.Ok? ==> r.value == Code.BigEndian(ins[..2]) && r.value < 65536
  {
    if |ins| < 2 then Err(IndexPanic)
    else
      Code.BigEndianPair(ins[..2]);
      var v: nat := 256 * (ins[0] as int) + ins[1];
      Ok(v)
  }

  /** `binary.BigEndian.PutUint16` of `uint16(o)`: the two bytes of `o` truncated modulo 65536. */
  function Uint16Bytes(o: int): (bs: seq<Byte>)
    ensures |bs| == 2 && Code.BigEndian(bs) == o % 65536
  {
    var v := o % 65536;
    var bs: seq<Byte> := [v / 256, v % 256];
    Code.BigEndianPair(bs);
    bs
  }

  /** Each width from `index` on is a byte count. */
  predicate NonNegative(widths: seq<int>) {
    forall j :: 0 <= j < |widths| ==> widths[j] >= 0
  }

  /**
   * The bytes after the opcode that `Make` lays out for widths[index..]:
   * a width-2 slot with an operand holds that operand truncated to 16 bits;
   * every other slot keeps the zeros of the fresh slice.
   */
  function Layout(widths: seq<int>, operands: seq<int>, index: nat): (bs: seq<Byte>)
    requires NonNegative(widths) && index <= |widths|
    ensures |bs| == Code.Sum(widths[index..])
    decreases |widths| - index
  {
    if index == |widths| then []
    else
      assert widths[index..][1..] == widths[index + 1..];
      (if index < |operands| && widths[index] == 2 then Uint16Bytes(operands[index])
       else seq(widths[index], _ => 0))
      + Layout(widths, operands, index + 1)
  }

  /** What `Make` returns: nothing for an undefined opcode, a panic for more operands than widths, else the laid-out instruction. */
  function MakeSpec(op: Byte, operands: seq<int>): Result<seq<Byte>> {
    if op !in Definitions then Ok([])
    else if |operands| > |Definitions[op].operandWidths| then Err(IndexPanic)
    else Ok([op] + Layout(Definitions[op].operandWidths, operands, 0))
  }

  /** `Make`: allocates 1 + the sum of the widths zero bytes and writes each operand at its offset. */
  method Make(op: Byte, operands: seq<int>) returns (r: Result<seq<Byte>>)
    ensures r == MakeSpec(op, operands)
  {
    if op !in Definitions {
      return Ok([]);
    }
    var widths := Definitions[op].operandWidths;
    var instructionLen := 1;
    var k := 0;
    while k < |widths|
      invariant k <= |widths| && instructionLen == 1 + Code.Sum(widths[..k])
    {
      assert widths[..k + 1] == [2] && widths[..k] == [];
      instructionLen := instructionLen + widths[k];
      k := k + 1;
    }
    assert widths[..k] == widths;
    var instruction := new Byte[instructionLen](_ => 0);
    instruction[0] := op;
    var offset := 1;
    var i := 0;
    while i < |operands|
      invariant i <= |operands| && i <= |widths|
      invariant instruction.Length == 1 + Code.Sum(widths)
      invariant offset == 1 + 2 * i
      invariant instruction[..] == [op] + Layout(widths, operands[..i], 0)
    {
      if i >= |widths| {
        return Err(IndexPanic);
      }
      var width := widths[i];
      var v := Uint16Bytes(operands[i]);
      if width == 2 {
        instruction[offset] := v[0];
        instruction[offset + 1] := v[1];
      }
      offset := offset + width;
      i := i + 1;
      assert instruction[..] == [op] + Layout(widths, operands[..i], 0) by {
        assert widths == [2] && i == 1;
        assert Layout(widths, operands[..i], 1) == [];
      }
    }
    assert operands[..i] == operands;
    if i < |widths| {
      assert Layout(widths, operands[..i], 0) == Layout(widths, operands, 0) by {
        assert i == 0;
      }
    }
    return Ok(instruction[..]);
  }

  /** The operands of widths[index..] read from `ins` starting at `offset`, and the offset after them. */
  function ReadOperandsFrom(widths: seq<int>, ins: seq<Byte>, index: nat, offset: int): (r: Result<(seq<int>, int)>)
    requires index <= |widths|
    ensures r.Ok? ==> |r.value.0| == |widths| - index
    ensures r.Ok? ==> r.value.1 == offset + Code.Sum(widths[index..])
    decreases |widths| - index
  {
    if index == |widths| then assert widths[index..] == []; Ok(([], offset))
    else
      assert widths[index..][1..] == widths[index + 1..];
      var rest := ReadOperandsFrom(widths, ins, index + 1, offset + widths[index]);
      if widths[index] == 2 then
        if offset < 0 || offset > |ins| then Err(IndexPanic)
        else match ReadUint16(ins[offset..])
          case Err(m) => Err(m)
          case Ok(v) => if rest.Err? then rest else Ok(([v] + rest.value.0, rest.value.1))
      else if rest.Err? then rest else Ok(([0] + rest.value.0, rest.value.1))
  }

  /** `ReadOperands(def, ins)`: one operand per width and the sum of the widths. */
  function ReadOperandsSpec(def: Definition, ins: seq<Byte>): Result<(seq<int>, int)> {
    ReadOperandsFrom(def.operandWidths, ins, 0, 0)
  }

  /** `ReadOperands`: fills a zeroed operand slice while advancing `offset`. */
  method ReadOperands(def: Definition, ins: seq<Byte>) returns (r: Result<(seq<int>, int)>)
    ensures r == ReadOperandsSpec(def, ins)
  {
    var widths := def.operandWidths;
    var operands := new int[|widths|](_ => 0);
    var offset := 0;
    var i := 0;
    GlueEmpty(ReadOperandsSpec(def, ins));
    assert operands[..0] == [] && widths[..0] == [];
    while i < |widths|
      invariant i <= |widths|
      invariant offset == Code.Sum(widths[..i])
      invariant forall j :: i <= j < operands.Length ==> operands[j] == 0
      invariant ReadOperandsSpec(def, ins) == Glue(operands[..i], ReadOperandsFrom(widths, ins, i, offset))
    {
      var width := widths[i];
      var rest := ReadOperandsFrom(widths, ins, i + 1, offset + width);
      if width == 2 {
        if offset < 0 || offset > |ins| {
          return Err(IndexPanic);
        }
        var v := ReadUint16(ins[offset..]);
        if v.Err? {
          return Err(v.message);
        }
        operands[i] := v.value;
      }
      GlueStep(operands[..i], operands[i], ReadOperandsSpec(def, ins), ReadOperandsFrom(widths, ins, i, offset), rest);
      assert operands[..i + 1] == operands[..i] + [operands[i]];
      SumSnoc(widths, i);
      offset := offset + width;
      i := i + 1;
    }
    assert operands[..] == operands[..i];
    assert widths[..i] == widths;
    assert ReadOperandsFrom(widths, ins, i, offset) == Ok(([], offset));
    assert operands[..i] + [] == operands[..i];
    return Ok((operands[..], offset));
  }

  /** Puts the operands read so far in front of a result that may have panicked. */
  function Glue(done: seq<int>, r: Result<(seq<int>, int)>): Result<(seq<int>, int)> {
    if r.Err? then r else Ok((done + r.value.0, r.value.1))
  }

  lemma GlueEmpty(r: Result<(seq<int>, int)>)
    ensures Glue([], r) == r
  {
    if r.Ok? {
      assert [] + r.value.0 == r.value.0;
    }
  }

  lemma GlueStep(done: seq<int>, v: int, whole: Result<(seq<int>, int)>, here: Result<(seq<int>, int)>, rest: Result<(seq<int>, int)>)
    requires whole == Glue(done, here)
    requires rest.Err? ==> here == rest
    requires rest.Ok? ==> here == Ok(([v] + rest.value.0, rest.value.1))
    ensures whole == Glue(done + [v], rest)
  {
    if rest.Ok? {
      assert done + ([v] + rest.value.0) == (done + [v]) + rest.value.0;
    }
  }

  lemma SumSnoc(ws: seq<int>, i: nat)
    requires i < |ws|
    ensures Code.Sum(ws[..i + 1]) == Code.Sum(ws[..i]) + ws[i]
  {
    SumAppend(ws[..i], [ws[i]]);
    assert ws[..i + 1] == ws[..i] + [ws[i]];
  }

  lemma {:induction false} SumAppend(a: seq<int>, b: seq<int>)
    ensures Code.Sum(a + b) == Code.Sum(a) + Code.Sum(b)
  {
    if a != [] {
      assert (a + b)[1..] == a[1..] + b;
      SumAppend(a[1..], b);
    } else {
      assert a + b == b;
    }
  }

  /**
   * `Make`'s instruction is always 1 + the sum of the widths long, whatever
   * the operand values, and its first byte is the opcode.
   */
  lemma MakeLength(op: Byte, operands: seq<int>)
    requires op in Definitions && |operands| <= |Definitions[op].operandWidths|
    ensures MakeSpec(op, operands).Ok?
    ensures |MakeSpec(op, operands).value| == 1 + Code.Sum(Definitions[op].operandWidths)
    ensures MakeSpec(op, operands).value[0] == op
  {
    var widths := Definitions[op].operandWidths;
    assert widths[0..] == widths;
    var bs := [op] + Layout(widths, operands, 0);
    assert MakeSpec(op, operands) == Ok(bs);
    assert |bs| == 1 + Code.Sum(widths);
  }

  /** `Make` truncates a width-2 operand modulo 65536: `Make(OpConstant, 65535)` is [0, 255, 255], and 65536 encodes as 0. */
  lemma MakeTruncates(o: int)
    ensures MakeSpec(OpConstant, [o]).Ok?
    ensures Code.BigEndian(MakeSpec(OpConstant, [o]).value[1..]) == o % 65536
    ensures MakeSpec(OpConstant, [65535]) == Ok([0, 255, 255])
    ensures MakeSpec(OpConstant, [65536]) == Ok([0, 0, 0])
  {
    assert Layout([2], [o], 1) == [];
    assert MakeSpec(OpConstant, [o]).value[1..] == Uint16Bytes(o);
    assert Definitions[OpConstant].operandWidths == [2];
    assert Layout([2], [65535], 1) == [] && Layout([2], [65536], 1) == [];
    assert Uint16Bytes(65535) == [255, 255] && Uint16Bytes(65536) == [0, 0];
    assert Layout([2], [65535], 0) == [255, 255] && Layout([2], [65536], 0) == [0, 0];
    assert [OpConstant] + [255, 255] == [0, 255, 255] && [OpConstant] + [0, 0] == [0, 0, 0];
  }

  /** Reading back what `Make` wrote recovers the operand modulo 65536, after 2 bytes, whatever follows. */
  lemma MakeReadRoundTrip(o: int, tail: seq<Byte>)
    ensures MakeSpec(OpConstant, [o]).Ok?
    ensures ReadOperandsSpec(Definitions[OpConstant], MakeSpec(OpConstant, [o]).value[1..] + tail) == Ok(([o % 65536], 2))
  {
    MakeTruncates(o);
    var bytes := MakeSpec(OpConstant, [o]).value[1..] + tail;
    assert bytes[0..][..2] == Uint16Bytes(o);
    assert Definitions[OpConstant].operandWidths == [2];
    assert ReadUint16(bytes[0..]) == Ok(o % 65536);
    assert ReadOperandsFrom([2], bytes, 1, 2) == Ok(([], 2));
    assert [o % 65536] + [] == [o % 65536];
    assert Code.Sum([2]) == 2 + Code.Sum([]);
  }

  /** With `0 <= v < 65536` the round trip is exact. */
  lemma MakeReadExact(v: int)
    requires 0 <= v < 65536
    ensures ReadOperandsSpec(Definitions[OpConstant], MakeSpec(OpConstant, [v]).value[1..]) == Ok(([v], 2))
  {
    MakeReadRoundTrip(v, []);
    assert MakeSpec(OpConstant, [v]).value[1..] + [] == MakeSpec(OpConstant, [v]).value[1..];
  }

  /** A width other than 2 leaves its operand at 0 but still advances the offset. */
  lemma ReadOperandsUnsupportedWidth(w: int, ins: seq<Byte>)
    requires w != 2
    ensures ReadOperandsSpec(Code.Definition("x", [w]), ins) == Ok(([0], w))
  {
    assert ReadOperandsFrom([w], ins, 1, w) == Ok(([], w));
    assert [0] + [] == [0];
    assert Code.Sum([w]) == w + Code.Sum([]);
  }

  /** `fmtInstruction`: "Name v" for one operand, an error line otherwise. */
  function FmtInstruction(def: Definition, operands: seq<int>): (s: string)
    ensures |operands| == |def.operandWidths| == 1 ==> s == def.name + " " + Text.IntToString(operands[0])
    ensures |operands| != |def.operandWidths| ==>
              s == "ERROR: operand len " + Text.NatToString(|operands|)
                   + " does not match defined " + Text.NatToString(|def.operandWidths|) + "\n"
    ensures |operands| == |def.operandWidths| != 1 ==> s == "ERROR: unhandled operandCount for " + def.name + "\n"
  {
    var operandCount := |def.operandWidths|;
    if |operands| != operandCount then
      "ERROR: operand len " + Text.NatToString(|operands|) + " does not match defined " + Text.NatToString(operandCount) + "\n"
    else if operandCount == 1 then def.name + " " + Text.IntToString(operands[0])
    else "ERROR: unhandled operandCount for " + def.name + "\n"
  }

  /** The line `Bing` writes for the instruction at `i`: "%04d %s\n". */
  function BingLine(i: nat, text: string): string {
    Text.PadStart(Text.NatToString(i), 4, '0') + " " + text + "\n"
  }

  /** The line `Bing` writes for a lookup error: "ERROR: %s\n". */
  function ErrorLine(message: string): string {
    "ERROR: " + message + "\n"
  }

  /**
   * One pass of the loop in `Bing`, as written: the new cursor and output.
   * On an undefined opcode it writes the error and `continue`s with the
   * cursor unchanged.
   */
  function BingPassAsWritten(ins: seq<Byte>, i: nat, out: string): Result<(nat, string)>
    requires i < |ins|
  {
    match Lookup(ins[i])
    case Err(e) => Ok((i, out + ErrorLine(e)))
    case Ok(def) =>
      match ReadOperandsSpec(def, ins[i + 1..])
      case Err(p) => Err(p)
      case Ok(read) => Ok((i + 1 + read.1, out + BingLine(i, FmtInstruction(def, read.0))))
  }

  /** The state after `n` passes of the loop as written, stopping early when the loop condition fails. */
  function BingPassesAsWritten(ins: seq<Byte>, i: nat, out: string, n: nat): Result<(nat, string)>
    decreases n
  {
    if n == 0 || i >= |ins| then Ok((i, out))
    else match BingPassAsWritten(ins, i, out)
      case Err(p) => Err(p)
      case Ok(s) => BingPassesAsWritten(ins, s.0, s.1, n - 1)
  }

  function Repeat(s: string, n: nat): string {
    if n == 0 then "" else s + Repeat(s, n - 1)
  }

  /**
   * As written, `Bing` never leaves an undefined opcode: after any number of
   * passes the cursor is still at it, the loop condition `i < len(ins)`
   * still holds, and the output has grown by one error line per pass.
   */
  lemma {:induction false} BingStallsAsWritten(ins: seq<Byte>, i: nat, out: string, n: nat)
    requires i < |ins| && ins[i] != OpConstant
    ensures BingPassesAsWritten(ins, i, out, n)
         == Ok((i, out + Repeat(ErrorLine("opcode " + Text.NatToString(ins[i]) + " undefined"), n)))
    decreases n
  {
    var line := ErrorLine("opcode " + Text.NatToString(ins[i]) + " undefined");
    if n == 0 {
      assert out + Repeat(line, 0) == out;
    } else {
      BingPassStalls(ins, i, out);
      BingPassesStep(ins, i, out, n, i, out + line);
      BingStallsAsWritten(ins, i, out + line, n - 1);
      RepeatAppend(out, line, n);
    }
  }

  /** One pass of the written loop at an undefined opcode writes the error line and keeps the cursor. */
  lemma BingPassStalls(ins: seq<Byte>, i: nat, out: string)
    requires i < |ins| && ins[i] != OpConstant
    ensures BingPassAsWritten(ins, i, out) == Ok((i, out + ErrorLine("opcode " + Text.NatToString(ins[i]) + " undefined")))
  {
  }

  /** n passes are one pass and then n - 1 more from where it leaves off. */
  lemma BingPassesStep(ins: seq<Byte>, i: nat, out: string, n: nat, j: nat, out': string)
    requires 0 < n && i < |ins| && BingPassAsWritten(ins, i, out) == Ok((j, out'))
    ensures BingPassesAsWritten(ins, i, out, n) == BingPassesAsWritten(ins, j, out', n - 1)
  {
  }

  lemma RepeatAppend(out: string, line: string, n: nat)
    requires 0 < n
    ensures out + line + Repeat(line, n - 1) == out + Repeat(line, n)
  {
  }

  /** A concrete input on which the written loop spins: the single byte 1. */
  lemma BingStallsExample(n: nat)
    ensures BingPassesAsWritten([1], 0, "", n).Ok? && BingPassesAsWritten([1], 0, "", n).value.0 == 0
  {
    BingStallsAsWritten([1], 0, "", n);
  }

  /**
   * The listing `Bing` evidently intends: each undefined byte is reported and
   * skipped, each defined instruction is printed at its offset, and a
   * truncated operand panics.
   */
  function BingFrom(ins: seq<Byte>, i: nat): Result<string>
    decreases |ins| - i
  {
    if i >= |ins| then Ok("")
    else match Lookup(ins[i])
      case Err(e) =>
        (match BingFrom(ins, i + 1)
         case Err(p) => Err(p)
         case Ok(rest) => Ok(ErrorLine(e) + rest))
      case Ok(def) =>
        match ReadOperandsSpec(def, ins[i + 1..])
        case Err(p) => Err(p)
        case Ok(read) =>
          assert Code.Sum(def.operandWidths) == 2 by { assert def.operandWidths[0..] == [2]; assert Code.Sum([2]) == 2 + Code.Sum([]); }
          match BingFrom(ins, i + 1 + read.1)
          case Err(p) => Err(p)
          case Ok(rest) => Ok(BingLine(i, FmtInstruction(def, read.0)) + rest)
  }

  /** Wherever the opcode is defined, the corrected loop takes exactly the written loop's step. */
  lemma BingAgreesWhereDefined(ins: seq<Byte>, i: nat, out: string)
    requires i < |ins| && ins[i] == OpConstant
    requires BingPassAsWritten(ins, i, out).Ok?
    ensures var s := BingPassAsWritten(ins, i, out);
      BingFrom(ins, i) == (match BingFrom(ins, s.value.0) case Err(p) => Err(p) case Ok(rest) => Ok(s.value.1[|out|..] + rest))
  {
    var s := BingPassAsWritten(ins, i, out);
    var def := Lookup(ins[i]).value;
    var read := ReadOperandsSpec(def, ins[i + 1..]).value;
    assert s.value.1 == out + BingLine(i, FmtInstruction(def, read.0));
    assert s.value.1[|out|..] == BingLine(i, FmtInstruction(def, read.0));
  }

  /** The error lines the corrected loop writes for a run of undefined bytes, one per byte. */
  function UndefinedLines(bytes: seq<Byte>): string
    decreases |bytes|
  {
    if bytes == [] then "" else ErrorLine("opcode " + Text.NatToString(bytes[0]) + " undefined") + UndefinedLines(bytes[1..])
  }

  /**
   * The corrected listing terminates on the input that makes the written loop spin:
   * from any cursor, a tail of undefined bytes gives one error line per byte, in order.
   */
  lemma {:induction false} BingSkipsUndefined(ins: seq<Byte>, i: nat)
    requires i <= |ins|
    requires forall k :: i <= k < |ins| ==> ins[k] != OpConstant
    ensures BingFrom(ins, i) == Ok(UndefinedLines(ins[i..]))
    decreases |ins| - i
  {
    if i < |ins| {
      BingSkipsUndefined(ins, i + 1);
      assert ins[i..][1..] == ins[i + 1..];
    }
  }

  /** On the single byte 1 the corrected listing is one error line. */
  lemma BingSkipsExample()
    ensures BingFrom([1], 0) == Ok(ErrorLine("opcode 1 undefined"))
  {
    var bytes: seq<Byte> := [1];
    BingSkipsUndefined(bytes, 0);
    assert bytes[0..] == bytes && bytes[1..] == [];
    assert Text.NatToString(1) == "1";
    assert "opcode " + "1" + " undefined" == "opcode 1 undefined";
    var line := ErrorLine("opcode 1 undefined");
    assert UndefinedLines(bytes) == line + UndefinedLines([]);
    assert UndefinedLines([]) == "" && line + "" == line;
  }

  /** `Bing`, corrected to step past an undefined byte: a loop on the cursor writing into a buffer. */
  method Bing(ins: seq<Byte>) returns (r: Result<string>)
    ensures r == BingFrom(ins, 0)
  {
    var out := "";
    var i := 0;
    AppendEmpty(BingFrom(ins, 0));
    while i < |ins|
      invariant BingFrom(ins, 0) == Append(out, BingFrom(ins, i))
      decreases |ins| - i
    {
      var def := Lookup(ins[i]);
      if def.Err? {
        assert BingFrom(ins, i) == Append(ErrorLine(def.message), BingFrom(ins, i + 1));
        AppendAssoc(out, ErrorLine(def.message), BingFrom(ins, i + 1));
        out := out + ErrorLine(def.message);
        i := i + 1;
        continue;
      }
      var read := ReadOperands(def.value, ins[i + 1..]);
      if read.Err? {
        return Err(read.message);
      }
      assert Code.Sum(def.value.operandWidths) == 2 by {
        assert def.value.operandWidths[0..] == [2];
        assert Code.Sum([2]) == 2 + Code.Sum([]);
      }
      var line := BingLine(i, FmtInstruction(def.value, read.value.0));
      assert BingFrom(ins, i) == Append(line, BingFrom(ins, i + 1 + read.value.1));
      AppendAssoc(out, line, BingFrom(ins, i + 1 + read.value.1));
      out := out + line;
      i := i + 1 + read.value.1;
    }
    assert out + "" == out;
    return Ok(out);
  }

  /** Output written so far in front of the rest of the listing, which may have panicked. */
  function Append(done: string, r: Result<string>): Result<string> {
    if r.Err? then r else Ok(done + r.value)
  }

  lemma AppendEmpty(r: Result<string>)
    ensures Append("", r) == r
  {
    if r.Ok? {
      assert "" + r.value == r.value;
    }
  }

  lemma AppendAssoc(a: string, b: string, r: Result<string>)
    ensures Append(a, Append(b, r)) == Append(a + b, r)
  {
    if r.Ok? {
      assert a + (b + r.value) == (a + b) + r.value;
    }
  }
}
