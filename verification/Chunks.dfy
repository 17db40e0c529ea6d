/** A chunk of bytecode: operands of several bytes, and the run-length table that says
    which source line each byte comes from. */
module Chunks {
  import opened Bytecode

  /** From `offset` on, bytes come from `line`. */
  datatype LineStart = LineStart(offset: nat, line: nat)

  // ----- operands -----

  /** The low `n` bytes of an operand, least significant first. */
  method OperandBytes(n: nat, v: nat) returns (bytes: seq<Byte>)
    ensures bytes == Operand(n, v)
  {
    bytes := [];
    var rest := v;
    for i := 0 to n
      invariant |bytes| == i && bytes + Operand(n - i, rest) == Operand(n, v)
    {
      assert Operand(n - i, rest) == [rest % 256] + Operand(n - i - 1, rest / 256);
      assert bytes + ([rest % 256] + Operand(n - i - 1, rest / 256)) == bytes + [rest % 256] + Operand(n - i - 1, rest / 256);
      bytes, rest := bytes + [rest % 256], rest / 256;
    }
    assert Operand(0, rest) == [];
  }

  lemma {:induction false} ReadAppend(bs: seq<Byte>, b: Byte)
    ensures ReadOperand(bs + [b]) == ReadOperand(bs) + b * Pow256(|bs|)
    decreases |bs|
  {
    if bs == [] {
      assert ([] + [b])[1..] == [];
      assert Pow256(0) == 1;
    } else {
      assert (bs + [b])[1..] == bs[1..] + [b];
      ReadAppend(bs[1..], b);
      assert 256 * (b * Pow256(|bs| - 1)) == b * (256 * Pow256(|bs| - 1));
    }
  }

  /** Adds up the bytes, each shifted to its place. */
  method ReadMultibyteOperand(code: seq<Byte>, at: nat, n: nat) returns (result: nat)
    requires at + n <= |code|
    ensures result == ReadOperand(code[at..at + n])
  {
    result := 0;
    var place: nat := 1;
    for i := 0 to n
      invariant result == ReadOperand(code[at..at + i]) && place == Pow256(i)
    {
      assert code[at..at + i + 1] == code[at..at + i] + [code[at + i]];
      ReadAppend(code[at..at + i], code[at + i]);
      result, place := result + code[at + i] * place, 256 * place;
    }
  }

  /** The flags byte of a captured variable, and its index in as many bytes as it says. */
  method ReadClosureOperand(code: seq<Byte>, at: nat) returns (isLocal: bool, index: nat, length: nat)
    requires DecodeCapture(code, at).Some?
    ensures DecodeCapture(code, at) == Some((Capture(isLocal, index), at + length))
  {
    var flags := code[at];
    length := flags % 128;
    isLocal := flags >= 128;
    index := ReadMultibyteOperand(code, at + 1, length);
    length := 1 + length;
  }

  /** Counts the bytes of an index by shifting it out. */
  method CountBytes(index: nat) returns (length: nat)
    ensures length == CaptureWidth(index)
  {
    var idx := index;
    length := 0;
    while idx != 0
      invariant length == 0 ==> idx == index
      invariant idx != 0 ==> CaptureWidth(index) == length + CaptureWidth(idx)
      invariant idx == 0 && length > 0 ==> CaptureWidth(index) == length
    {
      idx, length := idx / 256, length + 1;
    }
    if length == 0 { length := 1; }
  }

  // ----- lines -----

  function Repeated(line: nat, n: nat): (s: seq<nat>)
    ensures |s| == n && forall i :: 0 <= i < n ==> s[i] == line
  {
    seq(n, _ => line)
  }

  lemma RepeatedTwice(line: nat, m: nat, n: nat)
    ensures Repeated(line, m) + Repeated(line, n) == Repeated(line, m + n)
  {
  }

  ghost predicate Ordered(lines: seq<LineStart>) {
    forall i, j :: 0 <= i < j < |lines| ==> lines[i].offset <= lines[j].offset
  }

  ghost predicate Increasing(lines: seq<LineStart>) {
    forall i, j :: 0 <= i < j < |lines| ==> lines[i].offset < lines[j].offset
  }

  /** Where the `k`th run ends. */
  function RunEnd(lines: seq<LineStart>, k: nat, size: nat): nat
    requires k < |lines|
  {
    if k + 1 < |lines| then lines[k + 1].offset else size
  }

  /** The table after a byte of `line` is about to be written at `offset`. */
  function Started(lines: seq<LineStart>, offset: nat, line: nat): (r: seq<LineStart>)
    ensures r != [] && r[|r| - 1].line == line
  {
    if lines != [] && lines[|lines| - 1].line == line then lines else lines + [LineStart(offset, line)]
  }

  /** The table gives every byte the line it was written for. */
  ghost predicate TableOf(lines: seq<LineStart>, byLine: seq<nat>) {
    && Ordered(lines)
    && (byLine != [] ==> lines != [])
    && (lines != [] ==> lines[0].offset == 0 && lines[|lines| - 1].offset <= |byLine|)
    && forall k, i :: 0 <= k < |lines| && lines[k].offset <= i < RunEnd(lines, k, |byLine|) && i < |byLine| ==> byLine[i] == lines[k].line
  }

  /** More bytes of the last run's line. */
  lemma TableGrows(lines: seq<LineStart>, byLine: seq<nat>, line: nat, n: nat)
    requires TableOf(lines, byLine) && lines != [] && lines[|lines| - 1].line == line
    ensures TableOf(lines, byLine + Repeated(line, n))
  {
    var more := byLine + Repeated(line, n);
    forall k, i | 0 <= k < |lines| && lines[k].offset <= i < RunEnd(lines, k, |more|) && i < |more| ensures more[i] == lines[k].line {
      if i < |byLine| {
        assert i < RunEnd(lines, k, |byLine|) && more[i] == byLine[i];
      } else {
        assert k == |lines| - 1;
      }
    }
  }

  /** The opcode and the constant index of a closure. */
  function ClosureHead(index: nat, op: OpCode): seq<Byte> {
    [OpByte(op)] + Operand(OperandWidth(op), index)
  }

  lemma ClosureParts(index: nat, captures: seq<Capture>, op: OpCode)
    requires op == VarLength(CLOSURE, index).op
    ensures Encode(MakeClosure(index, captures)) == ClosureHead(index, op) + EncodeCaptures(captures)
  {
    hide OpByte;
    hide OperandWidth;
    hide Operand;
    hide EncodeCaptures;
  }

  class Chunk {
    var code: seq<Byte>
    var lines: seq<LineStart>
    /** The line that each byte was written for. */
    ghost var byLine: seq<nat>

    ghost predicate Valid()
      reads this
    {
      |byLine| == |code| && TableOf(lines, byLine)
    }

    /** No run is empty. */
    ghost predicate Tight()
      reads this
    {
      Increasing(lines) && (lines != [] ==> lines[|lines| - 1].offset < |code|)
    }

    constructor ()
      ensures Valid() && Tight() && code == [] && lines == [] && byLine == []
    {
      code, lines, byLine := [], [], [];
    }

    /** Starts a run, unless the last one is of the same line. */
    method WriteLine(line: nat)
      requires Valid()
      modifies `lines
      ensures Valid() && lines == Started(old(lines), |code|, line)
    {
      if lines != [] && lines[|lines| - 1].line == line {
        return;
      }
      lines := lines + [LineStart(|code|, line)];
    }

    /** Appends bytes of one line. No run stays empty, unless nothing is appended for a
        line of its own. */
    method WriteBytes(line: nat, bytes: seq<Byte>)
      requires Valid()
      modifies this
      ensures Valid() && code == old(code) + bytes && byLine == old(byLine) + Repeated(line, |bytes|)
      ensures lines == Started(old(lines), |old(code)|, line)
      ensures old(Tight()) ==> (Tight() <==> bytes != [] || lines == old(lines))
    {
      WriteLine(line);
      TableGrows(lines, byLine, line, |bytes|);
      hide TableOf;
      code := code + bytes;
      byLine := byLine + Repeated(line, |bytes|);
    }

    method WriteMultibyteOperand(n: nat, line: nat, operand: nat)
      requires Valid()
      modifies this
      ensures Valid() && code == old(code) + Operand(n, operand) && byLine == old(byLine) + Repeated(line, n)
      ensures lines == Started(old(lines), |old(code)|, line)
      ensures old(Tight()) ==> (Tight() <==> n > 0 || lines == old(lines))
    {
      var bytes := OperandBytes(n, operand);
      WriteBytes(line, bytes);
    }

    /** Overwrites an operand in place: a jump is aimed when its target is known. */
    method OverwriteOperand(n: nat, at: nat, operand: nat)
      requires Valid() && at + n <= |code|
      modifies `code
      ensures Valid() && code == old(code)[..at] + Operand(n, operand) + old(code)[at + n..]
      ensures old(Tight()) ==> Tight()
    {
      var bytes := OperandBytes(n, operand);
      code := code[..at] + bytes + code[at + n..];
    }

    /** The opcode, then its operand. */
    method WriteInstruction(n: nat, line: nat, op: OpCode, operand: nat)
      requires Valid()
      modifies this
      ensures Valid() && code == old(code) + [OpByte(op)] + Operand(n, operand) && byLine == old(byLine) + Repeated(line, 1 + n)
      ensures old(Tight()) ==> Tight()
    {
      RepeatedTwice(line, 1, n);
      WriteBytes(line, [OpByte(op)]);
      WriteMultibyteOperand(n, line, operand);
    }

    /** A captured variable of a closure. */
    method WriteClosureOperand(line: nat, c: Capture)
      requires Valid() && c.index < MAX_INDEX
      modifies this
      ensures Valid() && code == old(code) + EncodeCapture(c) && byLine == old(byLine) + Repeated(line, |EncodeCapture(c)|)
      ensures old(Tight()) ==> Tight()
    {
      hide Chunk.Valid;
      hide Chunk.Tight;
      hide Operand;
      hide Repeated;
      CaptureWidthBound(c.index);
      var length := CountBytes(c.index);
      hide CaptureWidth;
      RepeatedTwice(line, 1, length);
      var flags := ((if c.isLocal then 128 else 0) + length % 128) as Byte;
      WriteBytes(line, [flags]);
      WriteMultibyteOperand(length, line, c.index);
      assert EncodeCapture(c) == [flags] + Operand(length, c.index);
    }

    /** A closure instruction: short or long by its constant index, then its captures. */
    method WriteClosure(line: nat, index: nat, captures: seq<Capture>)
      requires Valid() && forall c <- captures :: c.index < MAX_INDEX
      modifies this
      ensures Valid() && code == old(code) + Encode(MakeClosure(index, captures))
      ensures byLine == old(byLine) + Repeated(line, |Encode(MakeClosure(index, captures))|)
      ensures old(Tight()) ==> Tight()
    {
      hide Chunk.Valid;
      hide Chunk.Tight;
      hide EncodeCaptures;
      hide OpByte;
      hide OperandWidth;
      hide Operand;
      hide Repeated;
      hide Encode;
      var op := VarLength(CLOSURE, index).op;
      ghost var head, tail := ClosureHead(index, op), EncodeCaptures(captures);
      ClosureParts(index, captures, op);
      RepeatedTwice(line, |head|, |tail|);
      WriteInstruction(OperandWidth(op), line, op, index);
      assert code == old(code) + head;
      hide ClosureHead;
      WriteCaptures(line, captures);
      assert old(code) + head + tail == old(code) + (head + tail);
    }

    method WriteCaptures(line: nat, captures: seq<Capture>)
      requires Valid() && forall c <- captures :: c.index < MAX_INDEX
      modifies this
      ensures Valid() && code == old(code) + EncodeCaptures(captures)
      ensures byLine == old(byLine) + Repeated(line, |EncodeCaptures(captures)|)
      ensures old(Tight()) ==> Tight()
    {
      hide Chunk.Valid;
      hide Chunk.Tight;
      hide EncodeCapture;
      hide Repeated;
      ghost var done: seq<Byte> := [];
      assert byLine == byLine + Repeated(line, 0) && captures[0..] == captures;
      for i := 0 to |captures|
        invariant Valid() && (old(Tight()) ==> Tight())
        invariant code == old(code) + done && byLine == old(byLine) + Repeated(line, |done|)
        invariant done + EncodeCaptures(captures[i..]) == EncodeCaptures(captures)
      {
        assert captures[i] in captures;
        assert captures[i..][1..] == captures[i + 1..];
        ghost var more := EncodeCapture(captures[i]);
        RepeatedTwice(line, |done|, |more|);
        WriteClosureOperand(line, captures[i]);
        assert done + (more + EncodeCaptures(captures[i + 1..])) == done + more + EncodeCaptures(captures[i + 1..]);
        done := done + more;
      }
      assert captures[|captures|..] == [];
    }

    /** Bisects for the run that a byte is in. */
    method GetLine(instruction: nat) returns (line: nat)
      requires Valid() && instruction < |code|
      ensures line == byLine[instruction]
    {
      var start, end := 0, |lines| - 1;
      while true
        invariant 0 <= start <= end < |lines| && lines[start].offset <= instruction
        invariant end + 1 < |lines| ==> instruction < lines[end + 1].offset
        decreases end - start
      {
        var mid := start + (end - start) / 2;
        if instruction < lines[mid].offset {
          end := mid - 1;
        } else if mid == |lines| - 1 || instruction < lines[mid + 1].offset {
          return lines[mid].line;
        } else {
          start := mid + 1;
        }
      }
    }

    /** Writes a whole stream of instructions with their lines. */
    method WriteAll(ins: seq<Instr>, at: seq<nat>)
      requires code == [] && Valid() && Tight() && |at| == |ins| && forall i <- ins :: Encodable(i)
      modifies this
      ensures Valid() && Tight() && code == EncodeAll(ins) && byLine == LinesOf(ins, at)
    {
      hide Encode;
      hide Encodable;
      hide Chunk.Valid;
      hide Chunk.Tight;
      hide Repeated;
      ghost var done: seq<Byte>, doneLines: seq<nat> := [], [];
      assert ins[0..] == ins && at[0..] == at;
      assert Valid() && code == [] && byLine == [] by { Empty(); }
      for i := 0 to |ins|
        invariant Valid() && Tight()
        invariant code == done && done + EncodeAll(ins[i..]) == EncodeAll(ins)
        invariant byLine == doneLines && doneLines + LinesOf(ins[i..], at[i..]) == LinesOf(ins, at)
      {
        assert ins[i..][1..] == ins[i + 1..] && at[i..][1..] == at[i + 1..];
        assert ins[i] in ins;
        ghost var more := Encode(ins[i]);
        ghost var moreLines := Repeated(at[i], |more|);
        assert done + (more + EncodeAll(ins[i + 1..])) == done + more + EncodeAll(ins[i + 1..]);
        assert doneLines + (moreLines + LinesOf(ins[i + 1..], at[i + 1..])) == doneLines + moreLines + LinesOf(ins[i + 1..], at[i + 1..]);
        WriteOne(ins[i], at[i]);
        done, doneLines := done + more, doneLines + moreLines;
      }
      assert ins[|ins|..] == [] && at[|at|..] == [];
    }

    lemma Empty()
      requires Valid() && code == []
      ensures byLine == []
    {
    }

    method WriteOne(i: Instr, line: nat)
      requires Valid() && Tight() && Encodable(i)
      modifies this
      ensures Valid() && Tight() && code == old(code) + Encode(i) && byLine == old(byLine) + Repeated(line, |Encode(i)|)
    {
      hide Chunk.Valid;
      hide Chunk.Tight;
      hide OpByte;
      hide OperandWidth;
      hide Operand;
      hide EncodeCaptures;
      match i
      case Plain(op, operand) =>
        WriteInstruction(OperandWidth(op), line, op, operand);
        assert Encode(i) == [OpByte(op)] + Operand(OperandWidth(op), operand);
      case MakeClosure(index, captures) => WriteClosure(line, index, captures);
    }
  }

  /** The line of each byte of a stream. */
  function LinesOf(ins: seq<Instr>, at: seq<nat>): (s: seq<nat>)
    requires |at| == |ins|
    ensures |s| == Size(ins)
  {
    if ins == [] then [] else Repeated(at[0], |Encode(ins[0])|) + LinesOf(ins[1..], at[1..])
  }

  lemma {:induction false} LineOfInstruction(ins: seq<Instr>, at: seq<nat>, k: nat)
    requires |at| == |ins| && k < |ins|
    ensures Size(ins[..k]) < Size(ins) && LinesOf(ins, at)[Size(ins[..k])] == at[k]
    decreases k
  {
    hide Encode;
    if k == 0 {
      assert ins[..0] == [];
    } else {
      LineOfInstruction(ins[1..], at[1..], k - 1);
      assert ins[1..][..k - 1] == ins[..k][1..];
    }
  }

  /** A written stream decodes to itself, and every instruction has the line it was given. */
  method RoundTrip(ins: seq<Instr>, at: seq<nat>, captureCount: nat -> nat) returns (chunk: Chunk)
    requires |at| == |ins| && forall i <- ins :: Encodable(i)
    requires forall i <- ins :: i.MakeClosure? ==> captureCount(i.index) == |i.captures|
    ensures chunk.Valid() && chunk.Tight() && DecodeAll(chunk.code, 0, |chunk.code|, captureCount) == Some(ins)
    ensures forall k :: 0 <= k < |ins| ==> Size(ins[..k]) < |chunk.code| && chunk.byLine[Size(ins[..k])] == at[k]
  {
    hide Encode;
    hide Decode;
    hide EncodeAll;
    hide DecodeAll;
    hide LinesOf;
    hide TableOf;
    hide Increasing;
    chunk := new Chunk();
    chunk.WriteAll(ins, at);
    assert chunk.code[0..|chunk.code|] == chunk.code;
    DecodeAllEncoded(chunk.code, 0, ins, captureCount);
    forall k | 0 <= k < |ins| ensures Size(ins[..k]) < |chunk.code| && chunk.byLine[Size(ins[..k])] == at[k] {
      LineOfInstruction(ins, at, k);
    }
  }
}
