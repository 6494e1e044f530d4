/** The `Inst` constructor of both solver scripts: it parses one
    whitespace-split line of disassembly into predicate, opcode, modifiers
    and encoding token, and pops the leading `{` and the predicate off the
    caller's list as it goes. */
module Instruction {
  import opened Errors
  import opened Text

  /** What `Inst` keeps of a line.  `opcode.py` reads only `op`; its
      constructor fails on exactly the same lists (the empty one) and
      pops the same tokens, so one model serves both scripts. */
  datatype Inst = Inst(pred: Option<string>, op: string, modifiers: set<string>, enc: string)

  /** The constructed instruction, or the exception it raised, together
      with the caller's list as the constructor left it. */
  datatype Parsed = Parsed(inst: Result<Inst>, rest: seq<string>)

  /** `Set(ms)`. */
  function Members(ms: seq<string>): (r: set<string>)
    ensures forall m :: m in r <==> m in ms
  {
    set m | m in ms
  }

  /** The opcode token without one trailing `;`. */
  function StripSemicolon(t: string): (s: string)
    requires |t| > 0
    ensures t == s || t == s + [';']
    ensures s == t <==> t[|t| - 1] != ';'
  {
    if t[|t| - 1] == ';' then t[..|t| - 1] else t
  }

  /** `Inst(toks)`.  The encoding is the second-to-last token of the list
      as given (Python indexing, so a one-token list yields that token);
      then a leading `{` is dropped, a token holding `@` is taken as the
      predicate and dropped, and the opcode token is read (OpcodeAt).
      Indexing an empty list raises IndexError. */
  function Parse(toks: seq<string>): Parsed
  {
    match At(toks, |toks| - 2)
    case Fail(e) => Parsed(Fail(e), toks)
    case Ok(enc) =>
      var t1 := if toks[0] == "{" then toks[1..] else toks;
      if |t1| == 0 then Parsed(Fail(IndexError), t1)
      else if '@' in t1[0] then OpcodeAt(Some(t1[0]), t1[1..], enc)
      else OpcodeAt(None, t1, enc)
  }

  /** The last step of `Inst(toks)`: the first token left, less a trailing
      `;`, is split on `.` into the opcode and the set of its modifiers.
      An empty list or an empty token raises IndexError. */
  function OpcodeAt(pred: Option<string>, t2: seq<string>, enc: string): Parsed
  {
    if |t2| == 0 || |t2[0]| == 0 then Parsed(Fail(IndexError), t2)
    else
      var segs := Split(StripSemicolon(t2[0]), {'.'});
      Parsed(Ok(Inst(pred, segs[0], Members(segs[1..]), enc)), t2)
  }

  /** What the constructor does to the caller's list and to the encoding:
      it fails only with IndexError, and exactly when no non-empty token is
      left for the opcode (so always on the empty list); it pops a leading
      `{` and then a predicate, and nothing else; and the encoding is the
      token the caller then finds second to last (the scripts read it
      again after the constructor). */
  lemma ParseShape(toks: seq<string>)
    ensures var p := Parse(toks);
      && |toks| - 2 <= |p.rest| <= |toks|
      && p.rest == toks[|toks| - |p.rest|..]
      && (toks == [] ==> p.inst == Fail(IndexError))
      && (p.inst.Fail? ==> p.inst.error == IndexError)
      && (p.inst.Ok? ==> |p.rest| >= 1 && |p.rest[0]| >= 1)
      && (p.inst.Ok? && |p.rest| >= 2 ==> At(p.rest, |p.rest| - 2) == Ok(p.inst.value.enc))
      && (p.inst.Ok? ==> p.inst.value.enc == toks[if |toks| >= 2 then |toks| - 2 else 0])
      && (p.inst.Fail? <==> p.rest == [] || p.rest[0] == "")
      && (toks != [] ==>
            var t1 := if toks[0] == "{" then toks[1..] else toks;
            p.rest == if t1 != [] && '@' in t1[0] then t1[1..] else t1)
  {
    var p := Parse(toks);
    if p.inst.Ok? && |p.rest| >= 2 {
      assert p.rest[|p.rest| - 2] == toks[|toks| - 2];
    }
  }

  /** The opcode and the modifiers are the `.`-free pieces of the opcode
      token, which they make up again when joined with `.`. */
  lemma ParseOpcode(toks: seq<string>)
    requires Parse(toks).inst.Ok?
    ensures var p := Parse(toks); var i := p.inst.value;
      && |p.rest| >= 1 && |p.rest[0]| >= 1
      && '.' !in i.op
      && (forall m :: m in i.modifiers ==> '.' !in m)
      && exists ms: seq<string> :: Join([i.op] + ms, ".") == StripSemicolon(p.rest[0])
                                   && i.modifiers == Members(ms)
  {
    var enc := At(toks, |toks| - 2).value;
    var t1 := if toks[0] == "{" then toks[1..] else toks;
    if '@' in t1[0] {
      OpcodeParts(Some(t1[0]), t1[1..], enc);
    } else {
      OpcodeParts(None, t1, enc);
    }
  }

  lemma OpcodeParts(pred: Option<string>, t2: seq<string>, enc: string)
    requires OpcodeAt(pred, t2, enc).inst.Ok?
    ensures var p := OpcodeAt(pred, t2, enc); var i := p.inst.value;
      && p.rest == t2 && |t2| >= 1 && |t2[0]| >= 1
      && '.' !in i.op
      && (forall m :: m in i.modifiers ==> '.' !in m)
      && exists ms: seq<string> :: Join([i.op] + ms, ".") == StripSemicolon(t2[0])
                                   && i.modifiers == Members(ms)
  {
    var s := StripSemicolon(t2[0]);
    var segs := Split(s, {'.'});
    SplitPiecesFree(s, {'.'});
    assert segs[0] in segs;
    forall m | m in Members(segs[1..])
      ensures '.' !in m
    {
      assert m in segs;
    }
    SplitJoin(s, '.');
    assert [segs[0]] + segs[1..] == segs;
  }

  /** No character of `s` is a separator the parser looks at. */
  predicate Plain(s: string)
  {
    '.' !in s && ';' !in s && '@' !in s
  }

  /** A line of disassembly as the dump tools print it, split on
      whitespace: an optional predicate, the opcode with its modifiers
      joined by `.`, the operands (a bare opcode carries the `;` itself)
      and the encoding inside a comment. */
  function Render(pred: Option<string>, op: string, mods: seq<string>, operands: seq<string>, enc: string): seq<string>
  {
    var opTok := Join([op] + mods, ".") + (if operands == [] then ";" else "");
    (if pred.Some? then [pred.value] else []) + [opTok] + operands + ["/*", enc, "*/"]
  }

  /** The opcode token of a rendered line is non-empty, is neither `{`
      nor a predicate, and splits back into the opcode and its modifiers. */
  lemma OpTokenParses(op: string, mods: seq<string>, semicolon: bool)
    requires op != "" && op != "{" && Plain(op)
    requires forall k :: 0 <= k < |mods| ==> Plain(mods[k])
    ensures var tok := Join([op] + mods, ".") + (if semicolon then ";" else "");
      && |tok| > 0 && tok != "{" && '@' !in tok
      && Split(StripSemicolon(tok), {'.'}) == [op] + mods
  {
    var ps := [op] + mods;
    var joined := Join(ps, ".");
    assert forall k :: 0 <= k < |ps| ==> Free(ps[k], {'.'});
    JoinSplit(ps, '.', {'.'});
    JoinChars(ps, '.');
    assert joined != "{" by {
      if mods != [] {
        JoinHasSeparator(ps, '.');
      }
    }
    var tok := joined + (if semicolon then ";" else "");
    assert StripSemicolon(tok) == joined;
  }

  /** The opcode token of a rendered line is non-empty, is not `{` and
      holds no `@`. */
  lemma OpTokenShape(op: string, mods: seq<string>, semicolon: bool)
    requires op != "" && op != "{" && Plain(op)
    requires forall k :: 0 <= k < |mods| ==> Plain(mods[k])
    ensures var tok := Join([op] + mods, ".") + (if semicolon then ";" else "");
      |tok| > 0 && tok != "{" && '@' !in tok
  {
    OpTokenParses(op, mods, semicolon);
  }

  /** Parsing a rendered line gives back its predicate, opcode, modifier
      set and encoding, and leaves the line without its predicate: Parse
      is the inverse of Render on the lines the tools print. */
  lemma RenderParse(pred: Option<string>, op: string, mods: seq<string>, operands: seq<string>, enc: string)
    requires pred.Some? ==> '@' in pred.value
    requires op != "" && op != "{" && Plain(op)
    requires forall k :: 0 <= k < |mods| ==> Plain(mods[k])
    ensures Parse(Render(pred, op, mods, operands, enc))
         == Parsed(Ok(Inst(pred, op, Members(mods), enc)), Render(None, op, mods, operands, enc))
  {
    var toks := Render(pred, op, mods, operands, enc);
    var rest := Render(None, op, mods, operands, enc);
    RenderedOpcode(pred, op, mods, operands, enc);
    RenderedFront(pred, op, mods, operands, enc);
    if pred.Some? {
      assert toks[0] == pred.value && '@' in toks[0] && toks[1..] == rest;
    } else {
      assert toks == rest && '@' !in toks[0];
    }
  }

  /** The opcode token of a rendered line, without predicate, reads back as
      its opcode and modifier set. */
  lemma RenderedOpcode(pred: Option<string>, op: string, mods: seq<string>, operands: seq<string>, enc: string)
    requires op != "" && op != "{" && Plain(op)
    requires forall k :: 0 <= k < |mods| ==> Plain(mods[k])
    ensures OpcodeAt(pred, Render(None, op, mods, operands, enc), enc)
         == Parsed(Ok(Inst(pred, op, Members(mods), enc)), Render(None, op, mods, operands, enc))
  {
    OpTokenParses(op, mods, operands == []);
    var segs := [op] + mods;
    assert segs[0] == op && segs[1..] == mods;
  }

  /** A rendered line: its second-to-last token is the encoding, it does
      not open with `{`, and it is the predicate, if any, before the line
      without it. */
  lemma RenderedFront(pred: Option<string>, op: string, mods: seq<string>, operands: seq<string>, enc: string)
    requires pred.Some? ==> '@' in pred.value
    requires op != "" && op != "{" && Plain(op)
    requires forall k :: 0 <= k < |mods| ==> Plain(mods[k])
    ensures var toks := Render(pred, op, mods, operands, enc);
      && At(toks, |toks| - 2) == Ok(enc)
      && toks[0] != "{"
      && toks == (if pred.Some? then [pred.value] else []) + Render(None, op, mods, operands, enc)
      && (pred.None? ==> '@' !in toks[0])
  {
    var tok := Join([op] + mods, ".") + (if operands == [] then ";" else "");
    OpTokenShape(op, mods, operands == []);
    var toks := Render(pred, op, mods, operands, enc);
    assert toks == (if pred.Some? then [pred.value] else []) + [tok] + operands + ["/*", enc, "*/"];
    assert toks[|toks| - 2] == enc;
    assert toks[0] != "{" by {
      if pred.Some? {
        assert '@' in toks[0];
      }
    }
  }

  /** A rendered line that opens a bundle with `{`: the `{` is popped too,
      and otherwise the line parses as it would without it. */
  lemma BracedRenderParse(pred: Option<string>, op: string, mods: seq<string>, operands: seq<string>, enc: string)
    requires pred.Some? ==> '@' in pred.value
    requires op != "" && op != "{" && Plain(op)
    requires forall k :: 0 <= k < |mods| ==> Plain(mods[k])
    ensures Parse(["{"] + Render(pred, op, mods, operands, enc))
         == Parsed(Ok(Inst(pred, op, Members(mods), enc)), Render(None, op, mods, operands, enc))
  {
    var line := Render(pred, op, mods, operands, enc);
    var toks := ["{"] + line;
    RenderParse(pred, op, mods, operands, enc);
    assert toks[1..] == line;
    assert At(toks, |toks| - 2) == At(line, |line| - 2);
  }

  /** The line in the comments of `modifier.py` renders the instruction
      ATOM.E.ADD.F32.FTZ.RN with three operands. */
  lemma AtomTokens()
    ensures Render(None, "ATOM", ["E", "ADD", "F32", "FTZ", "RN"], ["R0,", "[R2],", "R0;"], "0x68380000001c0802")
         == ["ATOM.E.ADD.F32.FTZ.RN", "R0,", "[R2],", "R0;", "/*", "0x68380000001c0802", "*/"]
  {
    var mods := ["E", "ADD", "F32", "FTZ", "RN"];
    JoinCons("FTZ", ["RN"], ".");
    JoinCons("F32", ["FTZ", "RN"], ".");
    JoinCons("ADD", ["F32", "FTZ", "RN"], ".");
    JoinCons("E", ["ADD", "F32", "FTZ", "RN"], ".");
    JoinCons("ATOM", mods, ".");
    assert Join(["ATOM"] + mods, ".") + "" == "ATOM.E.ADD.F32.FTZ.RN";
  }

  /** That line parses to the opcode `ATOM` with the other five pieces as
      its modifiers, and nothing is popped. */
  lemma AtomExample()
    ensures var toks := ["ATOM.E.ADD.F32.FTZ.RN", "R0,", "[R2],", "R0;", "/*", "0x68380000001c0802", "*/"];
      Parse(toks) == Parsed(Ok(Inst(None, "ATOM", Members(["E", "ADD", "F32", "FTZ", "RN"]), "0x68380000001c0802")), toks)
  {
    RenderParse(None, "ATOM", ["E", "ADD", "F32", "FTZ", "RN"], ["R0,", "[R2],", "R0;"], "0x68380000001c0802");
    AtomTokens();
  }

  /** The list in the comments of `opcode.py`: the opcode is `MOV`, with no
      modifier, and nothing is popped. */
  lemma MovExample()
    ensures var toks := ["MOV", "R1,", "c[0x0][0x44];", "/*", "0x64c03c00089c0006", "*/"];
      Parse(toks) == Parsed(Ok(Inst(None, "MOV", {}, "0x64c03c00089c0006")), toks)
  {
    var toks := ["MOV", "R1,", "c[0x0][0x44];", "/*", "0x64c03c00089c0006", "*/"];
    var none: seq<string> := [];
    var operands := ["R1,", "c[0x0][0x44];"];
    RenderParse(None, "MOV", none, operands, "0x64c03c00089c0006");
    assert ["MOV"] + none == ["MOV"];
    var opTok := Join(["MOV"] + none, ".") + "";
    assert opTok == "MOV";
    assert Render(None, "MOV", none, operands, "0x64c03c00089c0006") == none + [opTok] + operands + ["/*", "0x64c03c00089c0006", "*/"];
    assert none + ["MOV"] + operands + ["/*", "0x64c03c00089c0006", "*/"] == toks;
    assert Members(none) == {};
  }

  /** A predicated line renders with its predicate first. */
  lemma BracedTokens()
    ensures Render(Some("@P0"), "LDG", ["E"], ["R2,", "[R4];"], "0x8c8000000000000a")
         == ["@P0", "LDG.E", "R2,", "[R4];", "/*", "0x8c8000000000000a", "*/"]
    ensures Render(None, "LDG", ["E"], ["R2,", "[R4];"], "0x8c8000000000000a")
         == ["LDG.E", "R2,", "[R4];", "/*", "0x8c8000000000000a", "*/"]
  {
    JoinCons("LDG", ["E"], ".");
    assert Join(["LDG"] + ["E"], ".") + "" == "LDG.E";
  }

  /** A bundled, predicated line: `{` and the predicate are popped off the
      caller's list, and the encoding is still the token that was second
      to last. */
  lemma BracedExample()
    ensures var toks := ["{", "@P0", "LDG.E", "R2,", "[R4];", "/*", "0x8c8000000000000a", "*/"];
      Parse(toks) == Parsed(Ok(Inst(Some("@P0"), "LDG", Members(["E"]), "0x8c8000000000000a")), toks[2..])
  {
    var toks := ["{", "@P0", "LDG.E", "R2,", "[R4];", "/*", "0x8c8000000000000a", "*/"];
    RenderParse(Some("@P0"), "LDG", ["E"], ["R2,", "[R4];"], "0x8c8000000000000a");
    BracedTokens();
    assert toks[1..] == ["@P0", "LDG.E", "R2,", "[R4];", "/*", "0x8c8000000000000a", "*/"];
    assert toks[2..] == ["LDG.E", "R2,", "[R4];", "/*", "0x8c8000000000000a", "*/"];
    assert toks[0] == "{" && At(toks, |toks| - 2) == Ok("0x8c8000000000000a");
  }

  /** The characters of a join are those of its pieces and separators. */
  lemma {:induction false} JoinChars(ps: seq<string>, c: char)
    requires forall k :: 0 <= k < |ps| ==> Plain(ps[k])
    requires c == '.'
    ensures ';' !in Join(ps, [c]) && '@' !in Join(ps, [c])
    ensures |ps| >= 1 && ps[0] != "" ==> Join(ps, [c]) != ""
  {
    if |ps| > 1 {
      JoinChars(ps[1..], c);
    }
  }

  lemma JoinHasSeparator(ps: seq<string>, c: char)
    requires |ps| >= 2
    ensures c in Join(ps, [c])
  {
    assert Join(ps, [c])[|ps[0]|] == c;
  }

  /** The caller's list, which `Inst` shortens in place with `pop(0)`. */
  class TokenList {
    var items: seq<string>

    constructor(items: seq<string>)
      ensures this.items == items
    {
      this.items := items;
    }

    /** `list.pop(0)`. */
    method PopFront() returns (r: Result<string>)
      modifies this
      ensures old(items) == [] ==> r == Fail(IndexError) && items == []
      ensures old(items) != [] ==> r == Ok(old(items)[0]) && items == old(items)[1..]
    {
      if items == [] {
        return Fail(IndexError);
      }
      r := Ok(items[0]);
      items := items[1..];
    }
  }

  /** `Inst(list)` on the caller's list, step by step as the constructor
      runs: it returns what Parse computes and leaves the list as Parse
      says. */
  method NewInst(list: TokenList) returns (r: Result<Inst>)
    modifies list
    ensures r == Parse(old(list.items)).inst
    ensures list.items == Parse(old(list.items)).rest
  {
    var enc := At(list.items, |list.items| - 2);
    if enc.Fail? {
      return Fail(enc.error);
    }
    if list.items[0] == "{" {
      var _ := list.PopFront();
    }
    if |list.items| == 0 {
      return Fail(IndexError);
    }
    var pred: Option<string> := None;
    if '@' in list.items[0] {
      pred := Some(list.items[0]);
      var _ := list.PopFront();
    }
    if |list.items| == 0 || |list.items[0]| == 0 {
      return Fail(IndexError);
    }
    var tok := list.items[0];
    var str := if tok[|tok| - 1] == ';' then tok[..|tok| - 1] else tok;
    var op := Split(str, {'.'});
    r := Ok(Inst(pred, op[0], Members(op[1..]), enc.value));
  }
}
