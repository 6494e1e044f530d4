/** `dump` and the reading of its output, shared by both solver scripts:
    an encoding is printed as `'0x%016x'`, parsed back with `int(.., 16)`,
    packed as an unsigned 64-bit value and handed to the disassembler; an
    answer counts only if it is non-empty and holds neither `?` nor
    `error`, and the instruction is read from a fixed line of it. */
module Disasm {
  import opened Errors
  import opened Text
  import opened Hex
  import opened Arch
  import opened Instruction

  /** A value `struct.pack('Q', ...)` accepts: an unsigned 64-bit encoding. */
  type Code = n: int | 0 <= n < 0x1_0000_0000_0000_0000

  /** What the disassembler prints, stderr included, for one encoding:
      `nvdisasm` on the raw 8 bytes in mode 1, `cuobjdump` on the patched
      template in modes 2 and 3.  A run fixes the architecture, so it fixes
      this function. */
  type Oracle = Code -> string

  /** `dump` has a tool for mode 1 whatever the name, for mode 2 only with
      a Maxwell name and for mode 3 only with a Pascal name. */
  predicate HasTool(mode: int, arch: string)
  {
    mode == 1 || (mode == 2 && arch in MaxwellNames) || (mode == 3 && arch in PascalNames)
  }

  /** `dump(newcode, mode, arch)`.  Without a tool it prints a message and
      calls `exit()`; otherwise `int(newcode, 16)` may raise ValueError and
      the packing may raise `struct.error` before the disassembler runs. */
  function Dump(newcode: string, mode: int, arch: string, oracle: Oracle): Result<string>
  {
    if !HasTool(mode, arch) then Fail(Exit)
    else
      var base :- ParseInt16(newcode);
      if 0 <= base < Word then Ok(oracle(base)) else Fail(PackError)
  }

  /** Dumping a formatted encoding: the disassembler sees exactly the
      encoding when it is a 64-bit value; a negative one is printed as
      `0x-...`, which `int` rejects, and a wider one cannot be packed. */
  lemma DumpFormatted(code: int, mode: int, arch: string, oracle: Oracle)
    ensures Dump(Format016(code), mode, arch, oracle) ==
      if !HasTool(mode, arch) then Fail(Exit)
      else if code < 0 then Fail(ValueError)
      else if code >= Word then Fail(PackError)
      else Ok(oracle(code))
  {
    ParseFormat(code);
  }

  /** With the mode `check_mode` picks, `dump` has a tool exactly for the
      architecture names `check_mode` knows. */
  lemma ModeHasTool(arch: string)
    ensures HasTool(CheckMode(arch), arch) <==> CheckMode(arch) != 0
  {
  }

  /** `tmp and tmp.find("?") == -1 and tmp.find("error") == -1`. */
  predicate Accepted(text: string)
  {
    text != "" && !HasSubstring(text, "?") && !HasSubstring(text, "error")
  }

  /** The line of the output holding the instruction: line 1 of
      `nvdisasm`'s, line 5 of `cuobjdump`'s. */
  function LineIndex(mode: int): nat
  {
    if mode == 1 then 1 else 5
  }

  /** `tmp.split("\n")[LineIndex(mode)].split()`. */
  function InstructionWords(text: string, mode: int): Result<seq<string>>
  {
    var line :- At(Split(text, {'\n'}), LineIndex(mode));
    Ok(Words(line))
  }

  /** On output made of lines, the selected words are those of the line at
      LineIndex(mode), and an output with too few lines raises IndexError. */
  lemma InstructionWordsOfLines(lines: seq<string>, mode: int)
    requires |lines| >= 1
    requires forall k :: 0 <= k < |lines| ==> '\n' !in lines[k]
    ensures |lines| <= LineIndex(mode) ==> InstructionWords(Join(lines, "\n"), mode) == Fail(IndexError)
    ensures LineIndex(mode) < |lines| ==> InstructionWords(Join(lines, "\n"), mode) == Ok(Words(lines[LineIndex(mode)]))
  {
    assert forall k :: 0 <= k < |lines| ==> Free(lines[k], {'\n'});
    JoinSplit(lines, '\n', {'\n'});
  }

  /** The instruction in an answer, as both scripts read it back: nothing
      when the answer is refused; otherwise the words of the instruction
      line, less the address word `pop(0)` removes, are given to `Inst`,
      which yields the instruction and the list it leaves behind. */
  function Reread(tmp: string, mode: int): Result<Option<(Inst, seq<string>)>>
  {
    if !Accepted(tmp) then Ok(None)
    else
      var words :- InstructionWords(tmp, mode);
      if words == [] then Fail(IndexError)
      else
        var p := Parse(words[1..]);
        var my :- p.inst;
        Ok(Some((my, p.rest)))
  }

  /** On an accepted answer whose instruction line reads as an address
      word followed by a rendered instruction, `Reread` gives back that
      instruction, less its predicate, and leaves its tokens without the
      predicate; a refused answer gives nothing and too short an answer
      raises IndexError. */
  lemma RereadRendered(lines: seq<string>, mode: int, addr: string,
                       pred: Option<string>, op: string, mods: seq<string>, operands: seq<string>, enc: string)
    requires |lines| >= 1
    requires forall k :: 0 <= k < |lines| ==> '\n' !in lines[k]
    requires LineIndex(mode) < |lines|
    requires Words(lines[LineIndex(mode)]) == [addr] + Render(pred, op, mods, operands, enc)
    requires pred.Some? ==> '@' in pred.value
    requires op != "" && op != "{" && Plain(op)
    requires forall k :: 0 <= k < |mods| ==> Plain(mods[k])
    ensures var tmp := Join(lines, "\n");
      Reread(tmp, mode) ==
        if !Accepted(tmp) then Ok(None)
        else Ok(Some((Inst(pred, op, Members(mods), enc), Render(None, op, mods, operands, enc))))
  {
    InstructionWordsOfLines(lines, mode);
    var words := [addr] + Render(pred, op, mods, operands, enc);
    assert words[1..] == Render(pred, op, mods, operands, enc);
    RenderParse(pred, op, mods, operands, enc);
  }

  /** What `Reread` can do: it raises only IndexError, reads nothing from
      a refused answer, and hands back the list `Inst` left, which still
      starts with a non-empty opcode token. */
  lemma RereadShape(tmp: string, mode: int)
    ensures Reread(tmp, mode).Fail? ==> Reread(tmp, mode).error == IndexError && Accepted(tmp)
    ensures !Accepted(tmp) ==> Reread(tmp, mode) == Ok(None)
    ensures Reread(tmp, mode).Ok? && Reread(tmp, mode).value.Some? ==>
      var (my, rest) := Reread(tmp, mode).value.value;
      Accepted(tmp) && |rest| >= 1 && |rest[0]| >= 1 && '.' !in my.op
  {
    if Accepted(tmp) {
      var words := InstructionWords(tmp, mode);
      if words.Ok? && words.value != [] {
        ParseShape(words.value[1..]);
        if Parse(words.value[1..]).inst.Ok? {
          ParseOpcode(words.value[1..]);
        }
      }
    }
  }

  /** The same reading, step by step on the mutable list as the scripts
      do it: split the answer into lines, pick the instruction line, split
      it into words, `pop(0)` the address and construct `Inst`. */
  method RereadAnswer(tmp: string, mode: int) returns (r: Result<Option<(Inst, seq<string>)>>)
    ensures r == Reread(tmp, mode)
  {
    if !Accepted(tmp) {
      return Ok(None);
    }
    var instline := Split(tmp, {'\n'});
    var line := At(instline, if mode == 1 then 1 else 5);
    if line.Fail? {
      return Fail(line.error);
    }
    var inst := new TokenList(Words(line.value));
    var popped := inst.PopFront();
    if popped.Fail? {
      return Fail(popped.error);
    }
    var my := NewInst(inst);
    if my.Fail? {
      return Fail(my.error);
    }
    r := Ok(Some((my.value, inst.items)));
  }
}
