/** The main loop of `modifier.py`: for each of the first 99 lines of a
    disassembly listing, find the bits whose flip changes the modifiers of
    the instruction but not its opcode, report them, then disassemble every
    assignment of values to those bits and print each answer the
    disassembler accepts. */
module ModifierSolver {
  import opened Errors
  import opened Text
  import opened Hex
  import opened Arch
  import opened Bits
  import opened Instruction
  import opened Disasm
  import opened Loops

  /** A line the script prints: the modifier bits of a line of the listing
      (`origin.op, "modifier bits:", pos`), or one enumerated instruction. */
  datatype Printed = Report(op: string, pos: seq<Index>) | Variant(text: string)

  // ---------------------------------------------------------------------
  // The sweep over the 64 bits of a line.

  /** One pass of the bit loop: disassemble `base ^ 2**i` and say whether
      the answer is accepted and has the same opcode as `origin` but other
      modifiers. */
  function ModProbe(origin: Inst, base: int, i: Index, arch: string, oracle: Oracle): Result<bool>
  {
    var tmp :- Dump(Format016(Flip(base, i)), CheckMode(arch), arch, oracle);
    Judge(origin, tmp, CheckMode(arch))
  }

  /** Whether the answer `tmp` is a hit: an accepted instruction with the
      original opcode and a different set of modifiers. */
  function Judge(origin: Inst, tmp: string, mode: int): Result<bool>
  {
    var answer :- Reread(tmp, mode);
    Ok(answer.Some? && answer.value.0.modifiers != origin.modifiers && answer.value.0.op == origin.op)
  }

  /** What one pass does to `pos`: `pos.append(i)` on a hit, unless
      `pos.index(i)` finds it there already. */
  function Note(pos: seq<Index>, i: Index, r: Result<bool>): Run<seq<Index>>
  {
    match r
    case Fail(e) => Run(pos, Some(e))
    case Ok(hit) => Run(if hit && i !in pos then pos + [i] else pos, None)
  }

  /** The body of the bit loop as a step of Loop, for any outcome per bit. */
  function Collect(hit: Index -> Result<bool>): (seq<Index>, Index) -> Run<seq<Index>>
  {
    (pos: seq<Index>, i: Index) => Note(pos, i, hit(i))
  }

  /** The outcome of each pass for one line. */
  function Hits(origin: Inst, base: int, arch: string, oracle: Oracle): Index -> Result<bool>
  {
    (i: Index) => ModProbe(origin, base, i, arch, oracle)
  }

  /** The bit loop of one line, from the empty `pos` the line starts with. */
  function ModSweep(origin: Inst, base: int, arch: string, oracle: Oracle): Run<seq<Index>>
  {
    Loop(Range(64), 64, Collect(Hits(origin, base, arch, oracle)), [])
  }

  /** `pos` lists each bit once, in increasing order. */
  predicate Increasing(pos: seq<Index>)
  {
    forall a, b :: 0 <= a < b < |pos| ==> pos[a] < pos[b]
  }

  // ---------------------------------------------------------------------
  // The enumeration of the values of the modifier bits.

  /** `[(v >> j) & 1 for j in range(k)]`: the `k` low binary digits of
      `v`, lowest first. */
  function Digits(v: nat, k: nat): seq<int>
  {
    seq(k, j requires 0 <= j < k => if TestBit(v, j) then 1 else 0)
  }

  /** `[0] * k`. */
  function Zeros(k: nat): seq<int>
  {
    seq(k, _ => 0)
  }

  /** `range(n)`. */
  function Upto(n: nat): (s: seq<nat>)
    ensures |s| == n && forall v :: 0 <= v < n ==> s[v] == v
  {
    seq(n, v => if v >= 0 then v as nat else 0)
  }

  /** The encoding tried for value `v`: `or64(and64(encpar, zeros, pos),
      bits, pos)` with the digits of `v` as `bits`. */
  function Candidate(encpar: int, pos: seq<Index>, v: nat): int
  {
    Placed(Cleared(encpar, Zeros(|pos|), pos, |pos|), Digits(v, |pos|), pos, |pos|)
  }

  /** What a pass prints for the answer `tmp`: when it is accepted and its
      instruction line has at least five words, those words less the
      address, joined with single spaces. */
  function Shown(tmp: string, mode: int): Result<Option<string>>
  {
    if !Accepted(tmp) then Ok(None)
    else
      var inst :- InstructionWords(tmp, mode);
      if |inst| >= 5 then Ok(Some(Join(inst[1..], " "))) else Ok(None)
  }

  /** One pass of the enumeration loop: what it prints, if anything.  The
      encoding is read again from `origin.enc` on every pass. */
  function Enumerated(origin: Inst, pos: seq<Index>, v: nat, arch: string, oracle: Oracle): Result<Option<string>>
  {
    var encpar :- ParseInt16(origin.enc);
    var tmp :- Dump(Format016(Candidate(encpar, pos, v)), CheckMode(arch), arch, oracle);
    Shown(tmp, CheckMode(arch))
  }

  /** What one pass does to the printed lines. */
  function Emit(out: seq<Printed>, r: Result<Option<string>>): Run<seq<Printed>>
  {
    match r
    case Fail(e) => Run(out, Some(e))
    case Ok(None) => Run(out, None)
    case Ok(Some(text)) => Run(out + [Variant(text)], None)
  }

  /** The body of the enumeration loop as a step of Loop, for a given
      outcome of each pass. */
  function EmitWith(pass: nat -> Result<Option<string>>): (seq<Printed>, nat) -> Run<seq<Printed>>
  {
    (out: seq<Printed>, v: nat) => Emit(out, pass(v))
  }

  /** The outcome of each pass of the enumeration loop. */
  function Passes(origin: Inst, pos: seq<Index>, arch: string, oracle: Oracle): nat -> Result<Option<string>>
  {
    (v: nat) => Enumerated(origin, pos, v, arch, oracle)
  }

  function EnumStep(origin: Inst, pos: seq<Index>, arch: string, oracle: Oracle): (seq<Printed>, nat) -> Run<seq<Printed>>
  {
    EmitWith(Passes(origin, pos, arch, oracle))
  }

  /** `for i in range(1 << len(pos))`, after `out` was printed. */
  function Enumerate(origin: Inst, pos: seq<Index>, arch: string, oracle: Oracle, out: seq<Printed>): Run<seq<Printed>>
  {
    Loop(Upto(Pow2(|pos|)), Pow2(|pos|), EnumStep(origin, pos, arch, oracle), out)
  }

  // ---------------------------------------------------------------------
  // The lines of the listing.

  /** What a line yields before the sweep: the instruction and the
      encoding read back from the list `Inst` left behind. */
  function ModOrigin(line: string): Result<(Inst, int)>
  {
    var p := Parse(Words(line));
    var origin :- p.inst;
    var enc :- At(p.rest, |p.rest| - 2);
    var base :- ParseInt16(enc);
    Ok((origin, base))
  }

  /** One line of the listing: the sweep, then, when it found bits, the
      report and the enumeration. */
  function ModLine(line: string, arch: string, oracle: Oracle, out: seq<Printed>): Run<seq<Printed>>
  {
    match ModOrigin(line)
    case Fail(e) => Run(out, Some(e))
    case Ok((origin, base)) =>
      var sweep := ModSweep(origin, base, arch, oracle);
      if sweep.crash.Some? then Run(out, sweep.crash)
      else if sweep.state == [] then Run(out, None)
      else Enumerate(origin, sweep.state, arch, oracle, out + [Report(origin.op, sweep.state)])
  }

  function ModLineStep(arch: string, oracle: Oracle): (seq<Printed>, string) -> Run<seq<Printed>>
  {
    (out: seq<Printed>, line: string) => ModLine(line, arch, oracle, out)
  }

  /** The whole run on a listing: what it printed and the error that
      stopped it, if any. */
  function SolveMod(corpus: seq<string>, arch: string, oracle: Oracle): Run<seq<Printed>>
  {
    Loop(corpus, Processed(corpus), ModLineStep(arch, oracle), [])
  }

  // ---------------------------------------------------------------------
  // The script itself.

  /** The `__main__` block of `modifier.py` on a listing, an architecture
      name and the disassembler. */
  method SolveModifiers(corpus: seq<string>, arch: string, oracle: Oracle) returns (run: Run<seq<Printed>>)
    ensures run == SolveMod(corpus, arch, oracle)
  {
    var count := 0;
    var out: seq<Printed> := [];
    var k := 0;
    while k < |corpus|
      invariant k <= |corpus| && k <= 99 && count == k
      invariant Loop(corpus, k, ModLineStep(arch, oracle), []) == Run(out, None)
    {
      count := count + 1;
      if count == 100 {
        break;
      }
      run := HandleLine(corpus[k], arch, oracle, out);
      if run.crash.Some? {
        LoopStop(corpus, k, Processed(corpus), ModLineStep(arch, oracle), []);
        return;
      }
      out := run.state;
      k := k + 1;
    }
    run := Run(out, None);
  }

  /** The body of the line loop. */
  method HandleLine(line: string, arch: string, oracle: Oracle, out: seq<Printed>) returns (run: Run<seq<Printed>>)
    ensures run == ModLine(line, arch, oracle, out)
  {
    var list := new TokenList(Words(line));
    var origin := NewInst(list);
    var enc := if origin.Ok? then At(list.items, |list.items| - 2) else Fail(IndexError);
    var base := if enc.Ok? then ParseInt16(enc.value) else Fail(IndexError);
    if origin.Fail? || enc.Fail? || base.Fail? {
      var e := if origin.Fail? then origin.error else if enc.Fail? then enc.error else base.error;
      return Run(out, Some(e));
    }
    assert ModOrigin(line) == Ok((origin.value, base.value));
    var sweep := SweepModifiers(origin.value, base.value, arch, oracle);
    if sweep.crash.Some? {
      return Run(out, sweep.crash);
    }
    var pos := sweep.state;
    var printed := out;
    if |pos| > 0 {
      printed := printed + [Report(origin.value.op, pos)];
    }
    run := Run(printed, None);
    if |pos| > 0 {
      run := EnumerateVariants(origin.value, pos, arch, oracle, printed);
    }
  }

  /** The bit loop of one line, with `pos` starting empty. */
  method SweepModifiers(origin: Inst, base: int, arch: string, oracle: Oracle) returns (run: Run<seq<Index>>)
    ensures run == ModSweep(origin, base, arch, oracle)
  {
    ghost var step := Collect(Hits(origin, base, arch, oracle));
    var pos: seq<Index> := [];
    var i := 0;
    while i < 64
      invariant i <= 64
      invariant Loop(Range(64), i, step, []) == Run(pos, None)
    {
      assert Range(64)[i] == i;
      var mask := Pow2(i);
      var newcode := PyXor(base, mask);
      var mode := CheckMode(arch);
      var ff := Format016(newcode);
      var tmp := Dump(ff, mode, arch, oracle);
      if tmp.Fail? {
        run := Run(pos, Some(tmp.error));
        LoopStop(Range(64), i, 64, step, []);
        return;
      }
      var answer := RereadAnswer(tmp.value, mode);
      if answer.Fail? {
        run := Run(pos, Some(answer.error));
        LoopStop(Range(64), i, 64, step, []);
        return;
      }
      if answer.value.Some? {
        var (my, _) := answer.value.value;
        if my.modifiers != origin.modifiers && my.op == origin.op {
          if i !in pos {
            pos := pos + [i];
          }
        }
      }
      i := i + 1;
    }
    run := Run(pos, None);
  }

  /** `[(v >> j) & 1 for j in range(k)]`, one digit per pass. */
  method BinaryDigits(v: nat, k: nat) returns (bits: seq<int>)
    ensures bits == Digits(v, k)
  {
    bits := [];
    for j := 0 to k
      invariant bits == Digits(v, j)
    {
      var bb := Apply(And, Shr(v, j), 1);
      AndOne(Shr(v, j));
      ShrBit(v, j);
      bits := bits + [bb];
    }
  }

  /** The enumeration loop of one line, after `out` was printed. */
  method EnumerateVariants(origin: Inst, pos: seq<Index>, arch: string, oracle: Oracle, out: seq<Printed>)
    returns (run: Run<seq<Printed>>)
    ensures run == Enumerate(origin, pos, arch, oracle, out)
  {
    run := EnumerateWith(origin, pos, arch, oracle, out, Passes(origin, pos, arch, oracle));
  }

  /** The enumeration loop, proved against `pass`, any function that
      agrees with `Enumerated` on every value (which keeps the passes the
      loop has not reached out of the proof). */
  method EnumerateWith(origin: Inst, pos: seq<Index>, arch: string, oracle: Oracle, out: seq<Printed>,
                       ghost pass: nat -> Result<Option<string>>)
    returns (run: Run<seq<Printed>>)
    requires forall v: nat {:trigger Enumerated(origin, pos, v, arch, oracle)} :: pass(v) == Enumerated(origin, pos, v, arch, oracle)
    ensures run == Loop(Upto(Pow2(|pos|)), Pow2(|pos|), EmitWith(pass), out)
  {
    ghost var step := EmitWith(pass);
    var total := Pow2(|pos|);
    ghost var values := Upto(total);
    var printed := out;
    var v := 0;
    while v < total
      invariant v <= total
      invariant Loop(values, v, step, out) == Run(printed, None)
    {
      var next := PassStep(origin, pos, v, arch, oracle, printed, pass);
      assert values[v] == v;
      assert next == step(printed, values[v]);
      LoopNext(values, v, step, out, printed);
      if next.crash.Some? {
        LoopStop(values, v, total, step, out);
        return next;
      }
      printed := next.state;
      v := v + 1;
    }
    run := Run(printed, None);
  }

  /** One pass of the enumeration loop, with its `print`. */
  method PassStep(origin: Inst, pos: seq<Index>, v: nat, arch: string, oracle: Oracle, printed: seq<Printed>,
                  ghost pass: nat -> Result<Option<string>>)
    returns (next: Run<seq<Printed>>)
    requires forall v: nat {:trigger Enumerated(origin, pos, v, arch, oracle)} :: pass(v) == Enumerated(origin, pos, v, arch, oracle)
    ensures next == Emit(printed, pass(v))
  {
    var r := EnumeratePass(origin, pos, v, arch, oracle);
    if r.Fail? {
      return Run(printed, Some(r.error));
    }
    if r.value.Some? {
      return Run(printed + [Variant(r.value.value)], None);
    }
    return Run(printed, None);
  }

  /** The body of the enumeration loop, up to the `print`. */
  method EnumeratePass(origin: Inst, pos: seq<Index>, v: nat, arch: string, oracle: Oracle) returns (r: Result<Option<string>>)
    ensures r == Enumerated(origin, pos, v, arch, oracle)
  {
    var bits := BinaryDigits(v, |pos|);
    var zeros := seq(|pos|, _ => 0);
    var encpar := ParseInt16(origin.enc);
    if encpar.Fail? {
      return Fail(encpar.error);
    }
    var mm := And64(encpar.value, zeros, pos);
    var mmm := Or64(mm, bits, pos);
    var ff := Format016(mmm);
    var mode := CheckMode(arch);
    var tmp := Dump(ff, mode, arch, oracle);
    if tmp.Fail? {
      return Fail(tmp.error);
    }
    if !Accepted(tmp.value) {
      return Ok(None);
    }
    var instline := Split(tmp.value, {'\n'});
    var line := At(instline, if mode == 1 then 1 else 5);
    if line.Fail? {
      return Fail(line.error);
    }
    var inst := new TokenList(Words(line.value));
    if |inst.items| < 5 {
      return Ok(None);
    }
    var _ := inst.PopFront();
    var str := Join(inst.items, " ");
    return Ok(Some(str));
  }

  // ---------------------------------------------------------------------
  // The sweep.

  /** After its first `n` bits, a bit loop that has not stopped holds, in
      increasing order, exactly the bits below `n` whose pass was a hit. */
  lemma {:induction false} CollectOrdered(hit: Index -> Result<bool>, n: nat)
    requires n <= 64
    requires Loop(Range(64), n, Collect(hit), []).crash.None?
    ensures Increasing(Loop(Range(64), n, Collect(hit), []).state)
    ensures forall j: Index :: j in Loop(Range(64), n, Collect(hit), []).state <==> j < n && hit(j) == Ok(true)
  {
    if n > 0 {
      var prev: Run<seq<Index>> := Loop(Range(64), n - 1, Collect(hit), []);
      CollectOrdered(hit, n - 1);
      assert Range(64)[n - 1] == n - 1;
      assert Loop(Range(64), n, Collect(hit), []) == Note(prev.state, n - 1, hit(n - 1));
      forall a | 0 <= a < |prev.state|
        ensures prev.state[a] < n - 1
      {
        assert prev.state[a] in prev.state;
      }
    }
  }

  /** A sweep that does not stop reports, in increasing order and each
      once, exactly the bits whose flip changed the modifiers and kept the
      opcode. */
  lemma ModSweepFinds(origin: Inst, base: int, arch: string, oracle: Oracle)
    requires ModSweep(origin, base, arch, oracle).crash.None?
    ensures Increasing(ModSweep(origin, base, arch, oracle).state)
    ensures forall j: Index :: j in ModSweep(origin, base, arch, oracle).state
                               <==> ModProbe(origin, base, j, arch, oracle) == Ok(true)
  {
    CollectOrdered(Hits(origin, base, arch, oracle), 64);
  }

  /** With no tool for the architecture a pass exits; a negative encoding
      prints as `0x-...`, which `int` refuses, and one wider than 64 bits
      cannot be packed. */
  lemma ModProbeFails(origin: Inst, base: int, i: Index, arch: string, oracle: Oracle)
    ensures CheckMode(arch) == 0 ==> ModProbe(origin, base, i, arch, oracle) == Fail(Exit)
    ensures CheckMode(arch) != 0 && base < 0 ==> ModProbe(origin, base, i, arch, oracle) == Fail(ValueError)
    ensures CheckMode(arch) != 0 && base >= Word ==> ModProbe(origin, base, i, arch, oracle) == Fail(PackError)
  {
    ModeHasTool(arch);
    DumpFormatted(Flip(base, i), CheckMode(arch), arch, oracle);
  }

  /** With a tool for the architecture and a 64-bit encoding, a pass
      shows the disassembler the encoding with bit `i` flipped, and judges
      its answer. */
  lemma ModProbeSees(origin: Inst, base: int, i: Index, arch: string, oracle: Oracle)
    requires CheckMode(arch) != 0 && 0 <= base < Word
    ensures 0 <= Flip(base, i) < Word
    ensures forall j: nat :: IntBit(Flip(base, i), j) <==> (IntBit(base, j) != (j == i))
    ensures ModProbe(origin, base, i, arch, oracle) == Judge(origin, oracle(Flip(base, i)), CheckMode(arch))
  {
    ModeHasTool(arch);
    FlipBits(base, i);
    DumpFormatted(Flip(base, i), CheckMode(arch), arch, oracle);
  }

  /** On an answer whose instruction line is an address word and a
      rendered instruction, the pass is a hit exactly when the answer is
      accepted, the rendered opcode is the original one and the rendered
      modifiers, as a set, are not. */
  lemma JudgeRendered(origin: Inst, lines: seq<string>, mode: int, addr: string,
                      pred: Option<string>, op: string, mods: seq<string>, operands: seq<string>, enc: string)
    requires |lines| >= 1
    requires forall k :: 0 <= k < |lines| ==> '\n' !in lines[k]
    requires LineIndex(mode) < |lines|
    requires Words(lines[LineIndex(mode)]) == [addr] + Render(pred, op, mods, operands, enc)
    requires pred.Some? ==> '@' in pred.value
    requires op != "" && op != "{" && Plain(op)
    requires forall k :: 0 <= k < |mods| ==> Plain(mods[k])
    ensures Judge(origin, Join(lines, "\n"), mode) ==
      Ok(Accepted(Join(lines, "\n")) && Members(mods) != origin.modifiers && op == origin.op)
  {
    RereadRendered(lines, mode, addr, pred, op, mods, operands, enc);
  }

  // ---------------------------------------------------------------------
  // The enumeration.

  /** Different values below 2^k have different digits. */
  lemma DigitsInjective(v: nat, w: nat, k: nat)
    requires v < Pow2(k) && w < Pow2(k) && v != w
    ensures Digits(v, k) != Digits(w, k)
  {
    LowBitsDiffer(v, w, k);
    var t :| 0 <= t < k && TestBit(v, t) != TestBit(w, t);
    assert Digits(v, k)[t] != Digits(w, k)[t];
  }

  /** Bit `j` of the candidate for `v`: a bit listed in `pos` takes the
      digit of `v` at its place in `pos`; any other bit keeps its value in
      `encpar`. */
  lemma CandidateBit(encpar: int, pos: seq<Index>, v: nat, j: Index)
    ensures IntBit(Candidate(encpar, pos, v), j) <==>
      if j in pos then exists t :: 0 <= t < |pos| && pos[t] == j && TestBit(v, t)
      else IntBit(encpar, j)
  {
    var zeros := Zeros(|pos|);
    var digits := Digits(v, |pos|);
    ClearedBit(encpar, zeros, pos, |pos|, j);
    MarkedAt(zeros, pos, |pos|, j, 0);
    PlacedBit(Cleared(encpar, zeros, pos, |pos|), digits, pos, |pos|, j);
    MarkedAt(digits, pos, |pos|, j, 1);
    if j in pos {
      var t :| 0 <= t < |pos| && pos[t] == j;
      assert zeros[t] == 0;
    }
  }

  /** With the bits of `pos` distinct, bit `pos[t]` of the candidate is
      digit `t` of `v`. */
  lemma CandidateDigit(encpar: int, pos: seq<Index>, v: nat, t: nat)
    requires Increasing(pos) && t < |pos|
    ensures IntBit(Candidate(encpar, pos, v), pos[t]) <==> TestBit(v, t)
  {
    CandidateBit(encpar, pos, v, pos[t]);
    assert pos[t] in pos;
    assert forall u :: 0 <= u < |pos| && u != t ==> pos[u] != pos[t];
  }

  /** With at least one bit to enumerate, `and64` masks the encoding to
      64 bits, so every candidate is a 64-bit value, whatever the sign and
      width of `encpar`. */
  lemma CandidateRange(encpar: int, pos: seq<Index>, v: nat)
    requires |pos| >= 1
    ensures 0 <= Candidate(encpar, pos, v) < Word
  {
    var zeros := Zeros(|pos|);
    assert zeros[..|pos|][0] == 0;
    ClearedRange(encpar, zeros, pos, |pos|);
    PlacedRange(Cleared(encpar, zeros, pos, |pos|), Digits(v, |pos|), pos, |pos|);
  }

  /** The `2^k` passes try `2^k` different encodings. */
  lemma CandidateDistinct(encpar: int, pos: seq<Index>, v: nat, w: nat)
    requires Increasing(pos)
    requires v < Pow2(|pos|) && w < Pow2(|pos|) && v != w
    ensures Candidate(encpar, pos, v) != Candidate(encpar, pos, w)
  {
    LowBitsDiffer(v, w, |pos|);
    var t :| 0 <= t < |pos| && TestBit(v, t) != TestBit(w, t);
    CandidateDigit(encpar, pos, v, t);
    CandidateDigit(encpar, pos, w, t);
  }

  /** A pass whose encoding token reads as a number, with a tool for the
      architecture, shows the disassembler exactly the candidate for `v`;
      a token that does not read raises ValueError, and an unknown
      architecture exits. */
  lemma EnumeratedSees(origin: Inst, pos: seq<Index>, v: nat, arch: string, oracle: Oracle)
    requires |pos| >= 1
    ensures ParseInt16(origin.enc).Fail? ==> Enumerated(origin, pos, v, arch, oracle) == Fail(ValueError)
    ensures ParseInt16(origin.enc).Ok? && CheckMode(arch) == 0 ==> Enumerated(origin, pos, v, arch, oracle) == Fail(Exit)
    ensures ParseInt16(origin.enc).Ok? ==> 0 <= Candidate(ParseInt16(origin.enc).value, pos, v) < Word
    ensures ParseInt16(origin.enc).Ok? && CheckMode(arch) != 0 ==>
      Enumerated(origin, pos, v, arch, oracle)
      == Shown(oracle(Candidate(ParseInt16(origin.enc).value, pos, v)), CheckMode(arch))
  {
    ModeHasTool(arch);
    var p := ParseInt16(origin.enc);
    if p.Ok? {
      CandidateRange(p.value, pos, v);
      DumpFormatted(Candidate(p.value, pos, v), CheckMode(arch), arch, oracle);
    } else {
      assert p.error == ValueError;
    }
  }

  /** A pass prints only for an accepted answer, and what it prints splits
      back, with `split()`, into the words of the answer's instruction line
      less the address: at least four. */
  lemma ShownWords(tmp: string, mode: int)
    requires Shown(tmp, mode).Ok? && Shown(tmp, mode).value.Some?
    ensures Accepted(tmp)
    ensures InstructionWords(tmp, mode).Ok?
    ensures var ws := InstructionWords(tmp, mode).value;
      |ws| >= 5 && Words(Shown(tmp, mode).value.value) == ws[1..]
  {
    var ws := InstructionWords(tmp, mode).value;
    var line := At(Split(tmp, {'\n'}), LineIndex(mode)).value;
    WordsAreWords(line);
    assert forall k :: 0 <= k < |ws[1..]| ==> ws[1..][k] in ws;
    WordsJoin(ws[1..]);
  }

  /** On an accepted answer whose instruction line is an address word and
      a rendered instruction, the pass prints a line whose words are the
      rendered instruction: a rendered instruction always has at least
      four words, so the length test never decides. */
  lemma ShownRendered(lines: seq<string>, mode: int, addr: string,
                      pred: Option<string>, op: string, mods: seq<string>, operands: seq<string>, enc: string)
    requires |lines| >= 1
    requires forall k :: 0 <= k < |lines| ==> '\n' !in lines[k]
    requires LineIndex(mode) < |lines|
    requires Words(lines[LineIndex(mode)]) == [addr] + Render(pred, op, mods, operands, enc)
    requires Accepted(Join(lines, "\n"))
    ensures Shown(Join(lines, "\n"), mode).Ok? && Shown(Join(lines, "\n"), mode).value.Some?
    ensures Words(Shown(Join(lines, "\n"), mode).value.value) == Render(pred, op, mods, operands, enc)
  {
    InstructionWordsOfLines(lines, mode);
    ShownWords(Join(lines, "\n"), mode);
    assert ([addr] + Render(pred, op, mods, operands, enc))[1..] == Render(pred, op, mods, operands, enc);
  }

  /** A pass prints at most one line, a variant, after what was printed. */
  lemma EmitAppends(out: seq<Printed>, r: Result<Option<string>>)
    ensures var st := Emit(out, r).state;
      out <= st && |st| <= |out| + 1 && forall k :: |out| <= k < |st| ==> st[k].Variant?
  {
  }

  lemma {:induction false} EnumerateAppends(origin: Inst, pos: seq<Index>, arch: string, oracle: Oracle,
                                            out: seq<Printed>, n: nat)
    requires n <= Pow2(|pos|)
    ensures var st := Loop(Upto(Pow2(|pos|)), n, EnumStep(origin, pos, arch, oracle), out).state;
      out <= st && |st| <= |out| + n && forall k :: |out| <= k < |st| ==> st[k].Variant?
  {
    if n > 0 {
      EnumerateAppends(origin, pos, arch, oracle, out, n - 1);
      var prev := Loop(Upto(Pow2(|pos|)), n - 1, EnumStep(origin, pos, arch, oracle), out);
      if prev.crash.None? {
        assert Upto(Pow2(|pos|))[n - 1] == n - 1;
        EmitAppends(prev.state, Enumerated(origin, pos, n - 1, arch, oracle));
      }
    }
  }

  /** The enumeration of `k` bits makes `2^k` passes and prints at most one
      variant per pass, after what was printed before it. */
  lemma EnumeratePrints(origin: Inst, pos: seq<Index>, arch: string, oracle: Oracle, out: seq<Printed>)
    ensures var st := Enumerate(origin, pos, arch, oracle, out).state;
      out <= st && |st| <= |out| + Pow2(|pos|) && forall k :: |out| <= k < |st| ==> st[k].Variant?
  {
    EnumerateAppends(origin, pos, arch, oracle, out, Pow2(|pos|));
  }

  // ---------------------------------------------------------------------
  // What the run prints.

  /** Every report lists at least one bit, in increasing order. */
  predicate WellReported(out: seq<Printed>)
  {
    forall k :: 0 <= k < |out| && out[k].Report? ==> out[k].pos != [] && Increasing(out[k].pos)
  }

  lemma EmitKeeps(out: seq<Printed>, r: Result<Option<string>>)
    requires WellReported(out)
    ensures WellReported(Emit(out, r).state)
  {
  }

  lemma EnumerateKeeps(origin: Inst, pos: seq<Index>, arch: string, oracle: Oracle, out: seq<Printed>)
    requires WellReported(out)
    ensures WellReported(Enumerate(origin, pos, arch, oracle, out).state)
  {
    var step := EnumStep(origin, pos, arch, oracle);
    forall s, v | WellReported(s)
      ensures WellReported(step(s, v).state)
    {
      EmitKeeps(s, Enumerated(origin, pos, v, arch, oracle));
    }
    LoopKeeps(Upto(Pow2(|pos|)), Pow2(|pos|), step, out, WellReported);
  }

  lemma ModLineKeeps(line: string, arch: string, oracle: Oracle, out: seq<Printed>)
    requires WellReported(out)
    ensures WellReported(ModLine(line, arch, oracle, out).state)
  {
    if ModOrigin(line).Ok? {
      var (origin, base) := ModOrigin(line).value;
      var sweep := ModSweep(origin, base, arch, oracle);
      if sweep.crash.None? && sweep.state != [] {
        ModSweepFinds(origin, base, arch, oracle);
        var printed := out + [Report(origin.op, sweep.state)];
        assert WellReported(printed);
        EnumerateKeeps(origin, sweep.state, arch, oracle, printed);
      }
    }
  }

  /** Whether it finishes or stops on an error, every report the run
      printed lists its bits once each, in increasing order. */
  lemma SolveModReported(corpus: seq<string>, arch: string, oracle: Oracle)
    ensures WellReported(SolveMod(corpus, arch, oracle).state)
  {
    var step := ModLineStep(arch, oracle);
    forall s, line | WellReported(s)
      ensures WellReported(step(s, line).state)
    {
      ModLineKeeps(line, arch, oracle, s);
    }
    LoopKeeps(corpus, Processed(corpus), step, [], WellReported);
  }

  /** Lines after the 99th are never read. */
  lemma SolveModReadsPrefix(corpus: seq<string>, arch: string, oracle: Oracle)
    ensures SolveMod(corpus, arch, oracle) == SolveMod(corpus[..Processed(corpus)], arch, oracle)
  {
    var n := Processed(corpus);
    assert corpus[..n][..n] == corpus[..n];
    LoopPrefix(corpus, corpus[..n], n, ModLineStep(arch, oracle), []);
  }

  /** With an architecture name `check_mode` does not know, nothing is
      printed, and the first line that parses ends the run with `exit()`. */
  lemma UnknownArchPrintsNothing(corpus: seq<string>, arch: string, oracle: Oracle)
    requires CheckMode(arch) == 0
    ensures SolveMod(corpus, arch, oracle).state == []
    ensures Processed(corpus) > 0 && ModOrigin(corpus[0]).Ok? ==> SolveMod(corpus, arch, oracle).crash == Some(Exit)
  {
    var step := ModLineStep(arch, oracle);
    forall s, line
      ensures ModLine(line, arch, oracle, s).state == s
      ensures ModOrigin(line).Ok? ==> ModLine(line, arch, oracle, s).crash == Some(Exit)
    {
      if ModOrigin(line).Ok? {
        var (origin, base) := ModOrigin(line).value;
        ModProbeFails(origin, base, 0, arch, oracle);
        assert Range(64)[0] == 0;
        LoopStop(Range(64), 0, 64, Collect(Hits(origin, base, arch, oracle)), []);
      }
    }
    var isEmpty := (s: seq<Printed>) => s == [];
    LoopKeeps(corpus, Processed(corpus), step, [], isEmpty);
    if Processed(corpus) > 0 && ModOrigin(corpus[0]).Ok? {
      LoopStop(corpus, 0, Processed(corpus), step, []);
    }
  }
}
