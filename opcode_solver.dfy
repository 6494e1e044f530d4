/** The main loop of `opcode.py`: for each of the first 99 lines of a
    disassembly listing, flip each of the 64 bits of the line's encoding,
    disassemble the result and record the bit when the opcode changed to a
    different instruction (not merely to its alias). */
module OpcodeSolver {
  import opened Errors
  import opened Text
  import opened Hex
  import opened Arch
  import opened Bits
  import opened Instruction
  import opened Disasm
  import opened Loops

  /** The message printed for a recorded bit: the opcode became `to` when
      bit `bit` of an instruction with opcode `from` was flipped. */
  datatype Change = Change(from: string, to: string, bit: Index)

  /** What the script has found so far: the set `pos` it prints at the end
      and the changes it printed, in order. */
  datatype Found = Found(pos: set<Index>, changes: seq<Change>)

  /** LDG and TEX are one instruction, and so are RED and ATOM. */
  predicate Aliased(a: string, b: string)
  {
    || (a == "LDG" && b == "TEX") || (a == "TEX" && b == "LDG")
    || (a == "RED" && b == "ATOM") || (a == "ATOM" && b == "RED")
  }

  /** The test at the end of the inner loop's body, on the answer `tmp`:
      a change is reported when the answer is accepted and its opcode
      differs from `origin`, more than three words are left after parsing
      and the two opcodes are not aliases. */
  function Examine(origin: string, i: Index, tmp: string, mode: int): Result<Option<Change>>
  {
    var answer :- Reread(tmp, mode);
    match answer
    case None => Ok(None)
    case Some((my, rest)) =>
      if my.op != origin && |rest| > 3 && !Aliased(my.op, origin) then Ok(Some(Change(origin, my.op, i)))
      else Ok(None)
  }

  /** One step of the inner loop: disassemble `base ^ 2**i` and examine
      the answer. */
  function Probe(origin: string, base: int, i: Index, arch: string, oracle: Oracle): Result<Option<Change>>
  {
    var tmp :- Dump(Format016(Flip(base, i)), CheckMode(arch), arch, oracle);
    Examine(origin, i, tmp, CheckMode(arch))
  }

  /** Bit `i` is one the sweep records. */
  predicate Flips(origin: string, base: int, i: Index, arch: string, oracle: Oracle)
  {
    Probe(origin, base, i, arch, oracle).Ok? && Probe(origin, base, i, arch, oracle).value.Some?
  }

  /** `pos.add(i)` after printing the change. */
  function Record(found: Found, c: Change): Found
  {
    Found(found.pos + {c.bit}, found.changes + [c])
  }

  /** What one probe does to what the run has found. */
  function Visit(found: Found, r: Result<Option<Change>>): Run<Found>
  {
    match r
    case Fail(e) => Run(found, Some(e))
    case Ok(None) => Run(found, None)
    case Ok(Some(c)) => Run(Record(found, c), None)
  }

  /** The body of the inner loop as a step of Loop. */
  function ProbeStep(origin: string, base: int, arch: string, oracle: Oracle): (Found, Index) -> Run<Found>
  {
    (found: Found, i: Index) => Visit(found, Probe(origin, base, i, arch, oracle))
  }

  /** The inner loop over the 64 bits of `base`, starting from `found`. */
  function Sweep(origin: string, base: int, arch: string, oracle: Oracle, found: Found): Run<Found>
  {
    Loop(Range(64), 64, ProbeStep(origin, base, arch, oracle), found)
  }

  /** What a line yields before the sweep: its opcode and the encoding
      read back from the list `Inst` left behind. */
  function Origin(line: string): Result<(string, int)>
  {
    var p := Parse(Words(line));
    var origin :- p.inst;
    var enc :- At(p.rest, |p.rest| - 2);
    var base :- ParseInt16(enc);
    Ok((origin.op, base))
  }

  /** One line of the listing. */
  function LineRun(line: string, arch: string, oracle: Oracle, found: Found): Run<Found>
  {
    match Origin(line)
    case Fail(e) => Run(found, Some(e))
    case Ok((op, base)) => Sweep(op, base, arch, oracle, found)
  }

  /** The body of the outer loop as a step of Loop. */
  function LineStep(arch: string, oracle: Oracle): (Found, string) -> Run<Found>
  {
    (found: Found, line: string) => LineRun(line, arch, oracle, found)
  }

  /** The whole run on a listing: what it found and the error that
      stopped it, if any. */
  function Solve(corpus: seq<string>, arch: string, oracle: Oracle): Run<Found>
  {
    Loop(corpus, Processed(corpus), LineStep(arch, oracle), Found({}, []))
  }

  // ---------------------------------------------------------------------
  // The script itself.

  /** The `__main__` block of `opcode.py` on a listing, an architecture
      name and the disassembler. */
  method SolveOpcodes(corpus: seq<string>, arch: string, oracle: Oracle) returns (run: Run<Found>)
    ensures run == Solve(corpus, arch, oracle)
  {
    var count := 0;
    var found := Found({}, []);
    var k := 0;
    while k < |corpus|
      invariant k <= |corpus| && k <= 99 && count == k
      invariant Loop(corpus, k, LineStep(arch, oracle), Found({}, [])) == Run(found, None)
    {
      count := count + 1;
      if count == 100 {
        break;
      }
      run := ProbeLine(corpus[k], arch, oracle, found);
      LoopNext(corpus, k, LineStep(arch, oracle), Found({}, []), found);
      if run.crash.Some? {
        LoopStop(corpus, k, Processed(corpus), LineStep(arch, oracle), Found({}, []));
        return;
      }
      found := run.state;
      k := k + 1;
    }
    run := Run(found, None);
  }

  /** The body of the line loop: `Inst` on the words of the line, the
      encoding read again from the list it leaves, then the sweep. */
  method ProbeLine(line: string, arch: string, oracle: Oracle, found: Found) returns (run: Run<Found>)
    ensures run == LineRun(line, arch, oracle, found)
  {
    var list := new TokenList(Words(line));
    var origin := NewInst(list);
    var enc := if origin.Ok? then At(list.items, |list.items| - 2) else Fail(IndexError);
    var base := if enc.Ok? then ParseInt16(enc.value) else Fail(IndexError);
    if origin.Fail? || enc.Fail? || base.Fail? {
      var e := if origin.Fail? then origin.error else if enc.Fail? then enc.error else base.error;
      return Run(found, Some(e));
    }
    assert Origin(line) == Ok((origin.value.op, base.value));
    run := SweepBits(origin.value.op, base.value, arch, oracle, found);
  }

  /** The `for i in range(0, 64)` loop for one line, from what the run
      had found before it. */
  method SweepBits(origin: string, base: int, arch: string, oracle: Oracle, start: Found) returns (run: Run<Found>)
    ensures run == Sweep(origin, base, arch, oracle, start)
  {
    ghost var step := ProbeStep(origin, base, arch, oracle);
    ghost var bits := Range(64);
    var pos := start.pos;
    var changes := start.changes;
    var i := 0;
    while i < 64
      invariant i <= 64
      invariant Loop(bits, i, step, start) == Run(Found(pos, changes), None)
    {
      var r := ProbeBit(origin, base, i, arch, oracle);
      assert step(Found(pos, changes), bits[i]) == Visit(Found(pos, changes), r);
      if r.Fail? {
        run := Run(Found(pos, changes), Some(r.error));
        LoopStop(bits, i, 64, step, start);
        return;
      }
      if r.value.Some? {
        pos := pos + {i};
        changes := changes + [r.value.value];
      }
      i := i + 1;
    }
    run := Run(Found(pos, changes), None);
  }

  /** One pass of the inner loop's body, up to the test that decides
      whether bit `i` is printed and added to `pos`. */
  method ProbeBit(origin: string, base: int, i: Index, arch: string, oracle: Oracle) returns (r: Result<Option<Change>>)
    ensures r == Probe(origin, base, i, arch, oracle)
  {
    var mask := Pow2(i);
    var newcode := PyXor(base, mask);
    var mode := CheckMode(arch);
    var ff := Format016(newcode);
    var tmp := Dump(ff, mode, arch, oracle);
    if tmp.Fail? {
      return Fail(tmp.error);
    }
    var answer := RereadAnswer(tmp.value, mode);
    if answer.Fail? {
      return Fail(answer.error);
    }
    if answer.value.Some? {
      var (my, inst) := answer.value.value;
      if my.op != origin && |inst| > 3 && !Aliased(my.op, origin) {
        return Ok(Some(Change(origin, my.op, i)));
      }
    }
    return Ok(None);
  }

  // ---------------------------------------------------------------------
  // What a probe shows the disassembler and what it reports.

  /** With no tool for the architecture a probe exits; a negative
      encoding prints as `0x-...`, which `int` refuses, and one wider than
      64 bits cannot be packed. */
  lemma ProbeFails(origin: string, base: int, i: Index, arch: string, oracle: Oracle)
    ensures CheckMode(arch) == 0 ==> Probe(origin, base, i, arch, oracle) == Fail(Exit)
    ensures CheckMode(arch) != 0 && base < 0 ==> Probe(origin, base, i, arch, oracle) == Fail(ValueError)
    ensures CheckMode(arch) != 0 && base >= Word ==> Probe(origin, base, i, arch, oracle) == Fail(PackError)
  {
    ModeHasTool(arch);
    DumpFormatted(Flip(base, i), CheckMode(arch), arch, oracle);
  }

  /** Any other encoding reaches the disassembler with exactly bit `i`
      flipped, and the answer decides the outcome. */
  lemma ProbeSees(origin: string, base: int, i: Index, arch: string, oracle: Oracle)
    requires CheckMode(arch) != 0 && 0 <= base < Word
    ensures 0 <= Flip(base, i) < Word
    ensures forall j: nat :: IntBit(Flip(base, i), j) <==> (IntBit(base, j) != (j == i))
    ensures Probe(origin, base, i, arch, oracle) == Examine(origin, i, oracle(Flip(base, i)), CheckMode(arch))
  {
    ModeHasTool(arch);
    DumpFormatted(Flip(base, i), CheckMode(arch), arch, oracle);
    FlipBits(base, i);
  }

  /** A change is reported only for an accepted answer that leaves more
      than three tokens after `Inst`, and names the original opcode, the
      flipped bit and a different opcode that is not its alias; a refused
      answer reports nothing, and the only error is IndexError. */
  lemma ExamineShape(origin: string, i: Index, tmp: string, mode: int)
    ensures !Accepted(tmp) ==> Examine(origin, i, tmp, mode) == Ok(None)
    ensures Examine(origin, i, tmp, mode).Fail? ==> Examine(origin, i, tmp, mode).error == IndexError
    ensures Examine(origin, i, tmp, mode).Ok? && Examine(origin, i, tmp, mode).value.Some? ==>
      var c := Examine(origin, i, tmp, mode).value.value;
      && Accepted(tmp) && Reread(tmp, mode).Ok? && Reread(tmp, mode).value.Some?
      && |Reread(tmp, mode).value.value.1| > 3
      && c.from == origin && c.bit == i && c.to != origin && !Aliased(c.to, origin) && '.' !in c.to
  {
    RereadShape(tmp, mode);
  }

  /** On an accepted answer whose instruction line is an address word and
      a rendered instruction, the bit is reported exactly when the rendered
      opcode differs from the original one and is not its alias: a
      rendered instruction always leaves more than three tokens, so that
      test never decides. */
  lemma ExamineRendered(origin: string, i: Index, lines: seq<string>, mode: int, addr: string,
                        pred: Option<string>, op: string, mods: seq<string>, operands: seq<string>, enc: string)
    requires |lines| >= 1
    requires forall k :: 0 <= k < |lines| ==> '\n' !in lines[k]
    requires LineIndex(mode) < |lines|
    requires Words(lines[LineIndex(mode)]) == [addr] + Render(pred, op, mods, operands, enc)
    requires pred.Some? ==> '@' in pred.value
    requires op != "" && op != "{" && Plain(op)
    requires forall k :: 0 <= k < |mods| ==> Plain(mods[k])
    requires Accepted(Join(lines, "\n"))
    ensures Examine(origin, i, Join(lines, "\n"), mode) ==
      if op != origin && !Aliased(op, origin) then Ok(Some(Change(origin, op, i))) else Ok(None)
  {
    RereadRendered(lines, mode, addr, pred, op, mods, operands, enc);
  }

  // ---------------------------------------------------------------------
  // What the run keeps.

  /** Every printed change is genuine, and `pos` holds exactly the bits of
      the printed changes. */
  predicate Consistent(found: Found)
  {
    && (forall c :: c in found.changes ==> c.to != c.from && !Aliased(c.to, c.from))
    && found.pos == set c | c in found.changes :: c.bit
  }

  lemma RecordKeeps(found: Found, c: Change)
    requires Consistent(found)
    requires c.to != c.from && !Aliased(c.to, c.from)
    ensures Consistent(Record(found, c))
  {
    var after := Record(found, c);
    assert forall d :: d in after.changes <==> d in found.changes || d == c;
    assert after.pos == set d | d in after.changes :: d.bit;
  }

  lemma ProbeStepKeeps(origin: string, base: int, arch: string, oracle: Oracle, found: Found, i: Index)
    requires Consistent(found)
    ensures Consistent(ProbeStep(origin, base, arch, oracle)(found, i).state)
  {
    var r := Probe(origin, base, i, arch, oracle);
    if r.Ok? && r.value.Some? {
      var tmp := Dump(Format016(Flip(base, i)), CheckMode(arch), arch, oracle).value;
      ExamineShape(origin, i, tmp, CheckMode(arch));
      RecordKeeps(found, r.value.value);
    }
  }

  lemma SweepKeeps(origin: string, base: int, arch: string, oracle: Oracle, found: Found)
    requires Consistent(found)
    ensures Consistent(Sweep(origin, base, arch, oracle, found).state)
  {
    var step := ProbeStep(origin, base, arch, oracle);
    forall s, i | Consistent(s)
      ensures Consistent(step(s, i).state)
    {
      ProbeStepKeeps(origin, base, arch, oracle, s, i);
    }
    LoopKeeps(Range(64), 64, step, found, Consistent);
  }

  /** Whether it finishes or stops on an error, the run has printed only
      genuine changes, and the set it prints is exactly their bits. */
  lemma SolveConsistent(corpus: seq<string>, arch: string, oracle: Oracle)
    ensures Consistent(Solve(corpus, arch, oracle).state)
  {
    var step := LineStep(arch, oracle);
    forall s, line | Consistent(s)
      ensures Consistent(step(s, line).state)
    {
      if Origin(line).Ok? {
        SweepKeeps(Origin(line).value.0, Origin(line).value.1, arch, oracle, s);
      }
    }
    LoopKeeps(corpus, Processed(corpus), step, Found({}, []), Consistent);
  }

  // ---------------------------------------------------------------------
  // What the run finds.

  /** The sweep of `line` records bit `j`. */
  predicate LineFlips(line: string, j: Index, arch: string, oracle: Oracle)
  {
    Origin(line).Ok? && Flips(Origin(line).value.0, Origin(line).value.1, j, arch, oracle)
  }

  /** The bits a probe adds to `pos`. */
  function ProbeGain(origin: string, base: int, arch: string, oracle: Oracle): Index -> set<Index>
  {
    (i: Index) => if Flips(origin, base, i, arch, oracle) then {i} else {}
  }

  lemma ProbeStepGains(origin: string, base: int, arch: string, oracle: Oracle, found: Found, i: Index)
    requires ProbeStep(origin, base, arch, oracle)(found, i).crash.None?
    ensures ProbeStep(origin, base, arch, oracle)(found, i).state.pos
            == found.pos + ProbeGain(origin, base, arch, oracle)(i)
  {
    var p := Probe(origin, base, i, arch, oracle);
    if p.Ok? && p.value.Some? {
      ExamineShape(origin, i, Dump(Format016(Flip(base, i)), CheckMode(arch), arch, oracle).value, CheckMode(arch));
    }
  }

  /** A sweep that does not stop adds to `pos` exactly the bits whose
      probe reports a change. */
  lemma SweepFinds(origin: string, base: int, arch: string, oracle: Oracle, start: Found)
    requires Sweep(origin, base, arch, oracle, start).crash.None?
    ensures forall j: Index :: j in Sweep(origin, base, arch, oracle, start).state.pos
                               <==> j in start.pos || Flips(origin, base, j, arch, oracle)
  {
    var step := ProbeStep(origin, base, arch, oracle);
    var gain := ProbeGain(origin, base, arch, oracle);
    forall s, i | step(s, i).crash.None?
      ensures step(s, i).state.pos == s.pos + gain(i)
    {
      ProbeStepGains(origin, base, arch, oracle, s, i);
    }
    LoopGains(Range(64), 64, step, start, (s: Found) => s.pos, gain);
    SweepGain(origin, base, arch, oracle);
  }

  /** The gains of the 64 probes are the bits whose probe reports a change. */
  lemma SweepGain(origin: string, base: int, arch: string, oracle: Oracle)
    ensures forall j: Index :: j in Gained(Range(64), 64, ProbeGain(origin, base, arch, oracle))
                               <==> Flips(origin, base, j, arch, oracle)
  {
    var gain := ProbeGain(origin, base, arch, oracle);
    GainedMembers(Range(64), 64, gain);
    forall j: Index
      ensures j in Gained(Range(64), 64, gain) <==> Flips(origin, base, j, arch, oracle)
    {
      assert Range(64)[j] == j;
      if j in Gained(Range(64), 64, gain) {
        var k :| 0 <= k < 64 && j in gain(Range(64)[k]);
        assert Range(64)[k] == k;
      }
    }
  }

  /** The bits the sweep of `line` records. */
  function LineBits(line: string, arch: string, oracle: Oracle): (bits: set<Index>)
    ensures forall j: Index :: j in bits <==> LineFlips(line, j, arch, oracle)
  {
    set j: Index | LineFlips(line, j, arch, oracle)
  }

  /** A line whose sweep does not stop adds to `pos` exactly the bits
      that sweep records. */
  lemma LineFinds(line: string, arch: string, oracle: Oracle, found: Found)
    requires LineRun(line, arch, oracle, found).crash.None?
    ensures LineRun(line, arch, oracle, found).state.pos == found.pos + LineBits(line, arch, oracle)
  {
    var (op, base) := Origin(line).value;
    SweepFinds(op, base, arch, oracle, found);
  }

  /** A run that reaches the end of its lines prints as `pos` exactly the
      bits whose flip changed the opcode of one of the lines it read. */
  lemma SolveFinds(corpus: seq<string>, arch: string, oracle: Oracle)
    requires Solve(corpus, arch, oracle).crash.None?
    ensures forall j: Index :: j in Solve(corpus, arch, oracle).state.pos
                               <==> exists k :: 0 <= k < Processed(corpus) && j in LineBits(corpus[k], arch, oracle)
  {
    var step := LineStep(arch, oracle);
    var gain := (line: string) => LineBits(line, arch, oracle);
    forall s, line | step(s, line).crash.None?
      ensures step(s, line).state.pos == s.pos + gain(line)
    {
      LineFinds(line, arch, oracle, s);
    }
    LoopGains(corpus, Processed(corpus), step, Found({}, []), (s: Found) => s.pos, gain);
    GainedMembers(corpus, Processed(corpus), gain);
  }

  /** A probe never removes anything from what the run found. */
  lemma VisitGrows(found: Found, r: Result<Option<Change>>)
    ensures found.pos <= Visit(found, r).state.pos && found.changes <= Visit(found, r).state.changes
  {
  }

  lemma LineGrows(line: string, arch: string, oracle: Oracle, found: Found)
    ensures found.pos <= LineRun(line, arch, oracle, found).state.pos
    ensures found.changes <= LineRun(line, arch, oracle, found).state.changes
  {
    if Origin(line).Ok? {
      var (op, base) := Origin(line).value;
      var step := ProbeStep(op, base, arch, oracle);
      var grows := (s: Found) => found.pos <= s.pos && found.changes <= s.changes;
      forall s, i | grows(s)
        ensures grows(step(s, i).state)
      {
        VisitGrows(s, Probe(op, base, i, arch, oracle));
      }
      LoopKeeps(Range(64), 64, step, found, grows);
    }
  }

  /** The set `pos` shared by all lines only grows, and the printed
      changes are only appended to, from one line to a later one. */
  lemma SolveGrows(corpus: seq<string>, arch: string, oracle: Oracle, k: nat, n: nat)
    requires k <= n <= Processed(corpus)
    ensures var before := Loop(corpus, k, LineStep(arch, oracle), Found({}, [])).state;
            var after := Loop(corpus, n, LineStep(arch, oracle), Found({}, [])).state;
            before.pos <= after.pos && before.changes <= after.changes
  {
    var step := LineStep(arch, oracle);
    var le := (a: Found, b: Found) => a.pos <= b.pos && a.changes <= b.changes;
    forall s, line
      ensures le(s, step(s, line).state)
    {
      LineGrows(line, arch, oracle, s);
    }
    LoopGrows(corpus, k, n, step, Found({}, []), le);
  }

  /** Lines after the 99th are never read. */
  lemma SolveReadsPrefix(corpus: seq<string>, arch: string, oracle: Oracle)
    ensures Solve(corpus, arch, oracle) == Solve(corpus[..Processed(corpus)], arch, oracle)
  {
    var n := Processed(corpus);
    assert corpus[..n][..n] == corpus[..n];
    LoopPrefix(corpus, corpus[..n], n, LineStep(arch, oracle), Found({}, []));
  }

  /** A line whose encoding is negative or wider than 64 bits stops the
      run at its first probe, with nothing new found. */
  lemma BadEncodingStops(line: string, arch: string, oracle: Oracle, found: Found)
    requires Origin(line).Ok? && CheckMode(arch) != 0
    requires var base := Origin(line).value.1; base < 0 || base >= Word
    ensures LineRun(line, arch, oracle, found) ==
      Run(found, Some(if Origin(line).value.1 < 0 then ValueError else PackError))
  {
    var (op, base) := Origin(line).value;
    var step := ProbeStep(op, base, arch, oracle);
    ProbeFails(op, base, 0, arch, oracle);
    assert Range(64)[0] == 0;
    assert Loop(Range(64), 1, step, found).crash.Some?;
    LoopStop(Range(64), 0, 64, step, found);
  }

  /** With an architecture name `check_mode` does not know, nothing is
      ever found, and the first line that parses ends the run with
      `exit()`. */
  lemma UnknownArchFindsNothing(corpus: seq<string>, arch: string, oracle: Oracle)
    requires CheckMode(arch) == 0
    ensures Solve(corpus, arch, oracle).state == Found({}, [])
    ensures Processed(corpus) > 0 && Origin(corpus[0]).Ok? ==> Solve(corpus, arch, oracle).crash == Some(Exit)
  {
    var empty := Found({}, []);
    var step := LineStep(arch, oracle);
    var isEmpty := (s: Found) => s == empty;
    forall s, line | isEmpty(s)
      ensures isEmpty(step(s, line).state)
    {
      if Origin(line).Ok? {
        var (op, base) := Origin(line).value;
        ProbeFails(op, base, 0, arch, oracle);
        assert Range(64)[0] == 0;
        LoopStop(Range(64), 0, 64, ProbeStep(op, base, arch, oracle), s);
      }
    }
    LoopKeeps(corpus, Processed(corpus), step, empty, isEmpty);
    if Processed(corpus) > 0 && Origin(corpus[0]).Ok? {
      var (op, base) := Origin(corpus[0]).value;
      ProbeFails(op, base, 0, arch, oracle);
      assert Range(64)[0] == 0;
      LoopStop(Range(64), 0, 64, ProbeStep(op, base, arch, oracle), empty);
      LoopStop(corpus, 0, Processed(corpus), step, empty);
    }
  }
}
