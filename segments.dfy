/**
 * Segment assembly of PINS'24: the code segment is the initializing code
 * of the global variables, a start-up stub that calls `main` and then
 * `exit`, and the code of every function with a body in preorder; the
 * data segment is every variable's data block in the order of the tree.
 *
 * Both generators walk the tree in the order of its fields: a function's
 * parameters, then its statements; an `if`'s condition, then its `then`
 * and `else` branches; a `while`'s condition, then its body; a `let`'s
 * definitions, then its statements; an assignment's destination, then
 * its source; a binary expression's first operand, then its second.
 */
module Segments {
  import opened Ast
  import opened Memory
  import opened CodeGen

  // ---------------------------------------------------------------------
  // The code segment
  // ---------------------------------------------------------------------

  /** The code segment under construction: global initializations, function code, main's frame. */
  datatype Seg = Seg(init: seq<Instr>, funs: seq<Instr>, main: Option<Frame>)

  /** The frame recorded for a function, if any. */
  function FrameOf(mem: MemAttrs, id: NodeId): Option<Frame> {
    if id in mem.frames then Some(mem.frames[id]) else None
  }

  /**
   * The walk of the code segment generator over one definition: a function
   * with a body adds its code, then its body is walked, then a function
   * named `main` records its frame; a global variable adds its
   * initializing code, a local one nothing.
   */
  function DefSeg(d: Def, code: map<NodeId, seq<Instr>>, mem: MemAttrs, s: Seg): Result<Seg>
    decreases d, 0
  {
    match d
    case FunDef(id, name, _, stmts) =>
      if |stmts| == 0 then Ok(s)
      else if id !in code then Fail(Crash("addAll of a null code list"))
      else
        var s1 :- StmtsSeg(stmts, code, mem, s.(funs := s.funs + code[id]));
        Ok(if name == "main" then s1.(main := FrameOf(mem, id)) else s1)
    case VarDef(id, _, _) =>
      if id !in mem.varAccess then Fail(Crash("switch on a null access"))
      else if mem.varAccess[id].RelAccess? then Ok(s)
      else if id !in code then Fail(Crash("addAll of a null code list"))
      else Ok(s.(init := s.init + code[id]))
  }

  function DefsSeg(defs: seq<Def>, code: map<NodeId, seq<Instr>>, mem: MemAttrs, s: Seg): Result<Seg>
    decreases defs, 1
  {
    if |defs| == 0 then Ok(s)
    else
      var s1 :- DefsSeg(defs[..|defs| - 1], code, mem, s);
      DefSeg(defs[|defs| - 1], code, mem, s1)
  }

  /** Statements hold definitions only inside `let`s; expressions hold none. */
  function StmtSeg(st: Stmt, code: map<NodeId, seq<Instr>>, mem: MemAttrs, s: Seg): Result<Seg>
    decreases st, 0
  {
    match st
    case ExprStmt(_, _) => Ok(s)
    case AssignStmt(_, _, _) => Ok(s)
    case IfStmt(_, _, thenStmts, elseStmts) =>
      var s1 :- StmtsSeg(thenStmts, code, mem, s);
      StmtsSeg(elseStmts, code, mem, s1)
    case WhileStmt(_, _, stmts) => StmtsSeg(stmts, code, mem, s)
    case LetStmt(_, defs, stmts) =>
      var s1 :- DefsSeg(defs, code, mem, s);
      StmtsSeg(stmts, code, mem, s1)
  }

  function StmtsSeg(ss: seq<Stmt>, code: map<NodeId, seq<Instr>>, mem: MemAttrs, s: Seg): Result<Seg>
    decreases ss, 1
  {
    if |ss| == 0 then Ok(s)
    else
      var s1 :- StmtsSeg(ss[..|ss| - 1], code, mem, s);
      StmtSeg(ss[|ss| - 1], code, mem, s1)
  }

  /** The start-up code: call `main` with its frame, then `exit` with none. */
  function Stub(main: Option<Frame>): seq<Instr> {
    [PUSH(0), NAME("main"), CALL(main), PUSH(0), NAME("exit"), CALL(None)]
  }

  /** codeSegment(): the initializations, the stub, then the functions. */
  function CodeSegmentOf(program: seq<Def>, code: map<NodeId, seq<Instr>>, mem: MemAttrs): Result<seq<Instr>> {
    var s :- DefsSeg(program, code, mem, Seg([], [], None));
    Ok(s.init + Stub(s.main) + s.funs)
  }

  // --- reference definitions: which nodes contribute, in which order

  /** The functions with a body, in preorder (a function before the ones nested in it). */
  function FunIdsOfDef(d: Def): seq<NodeId>
    decreases d, 0
  {
    match d
    case FunDef(id, _, _, stmts) => if |stmts| == 0 then [] else [id] + FunIdsOfStmts(stmts)
    case VarDef(_, _, _) => []
  }

  function FunIdsOfDefs(defs: seq<Def>): seq<NodeId>
    decreases defs, 1
  {
    if |defs| == 0 then [] else FunIdsOfDefs(defs[..|defs| - 1]) + FunIdsOfDef(defs[|defs| - 1])
  }

  function FunIdsOfStmt(s: Stmt): seq<NodeId>
    decreases s, 0
  {
    match s
    case ExprStmt(_, _) => []
    case AssignStmt(_, _, _) => []
    case IfStmt(_, _, thenStmts, elseStmts) => FunIdsOfStmts(thenStmts) + FunIdsOfStmts(elseStmts)
    case WhileStmt(_, _, stmts) => FunIdsOfStmts(stmts)
    case LetStmt(_, defs, stmts) => FunIdsOfDefs(defs) + FunIdsOfStmts(stmts)
  }

  function FunIdsOfStmts(ss: seq<Stmt>): seq<NodeId>
    decreases ss, 1
  {
    if |ss| == 0 then [] else FunIdsOfStmts(ss[..|ss| - 1]) + FunIdsOfStmt(ss[|ss| - 1])
  }

  /**
   * The variables with an absolute access, in tree order; variables inside
   * a function without a body are not reached.
   */
  function GlobalIdsOfDef(d: Def, mem: MemAttrs): seq<NodeId>
    decreases d, 0
  {
    match d
    case FunDef(_, _, _, stmts) => if |stmts| == 0 then [] else GlobalIdsOfStmts(stmts, mem)
    case VarDef(id, _, _) => if id in mem.varAccess && mem.varAccess[id].AbsAccess? then [id] else []
  }

  function GlobalIdsOfDefs(defs: seq<Def>, mem: MemAttrs): seq<NodeId>
    decreases defs, 1
  {
    if |defs| == 0 then [] else GlobalIdsOfDefs(defs[..|defs| - 1], mem) + GlobalIdsOfDef(defs[|defs| - 1], mem)
  }

  function GlobalIdsOfStmt(s: Stmt, mem: MemAttrs): seq<NodeId>
    decreases s, 0
  {
    match s
    case ExprStmt(_, _) => []
    case AssignStmt(_, _, _) => []
    case IfStmt(_, _, thenStmts, elseStmts) => GlobalIdsOfStmts(thenStmts, mem) + GlobalIdsOfStmts(elseStmts, mem)
    case WhileStmt(_, _, stmts) => GlobalIdsOfStmts(stmts, mem)
    case LetStmt(_, defs, stmts) => GlobalIdsOfDefs(defs, mem) + GlobalIdsOfStmts(stmts, mem)
  }

  function GlobalIdsOfStmts(ss: seq<Stmt>, mem: MemAttrs): seq<NodeId>
    decreases ss, 1
  {
    if |ss| == 0 then [] else GlobalIdsOfStmts(ss[..|ss| - 1], mem) + GlobalIdsOfStmt(ss[|ss| - 1], mem)
  }

  /** The functions named `main` with a body, each after the ones nested in it. */
  function MainIdsOfDef(d: Def): seq<NodeId>
    decreases d, 0
  {
    match d
    case FunDef(id, name, _, stmts) =>
      if |stmts| == 0 then [] else MainIdsOfStmts(stmts) + (if name == "main" then [id] else [])
    case VarDef(_, _, _) => []
  }

  function MainIdsOfDefs(defs: seq<Def>): seq<NodeId>
    decreases defs, 1
  {
    if |defs| == 0 then [] else MainIdsOfDefs(defs[..|defs| - 1]) + MainIdsOfDef(defs[|defs| - 1])
  }

  function MainIdsOfStmt(s: Stmt): seq<NodeId>
    decreases s, 0
  {
    match s
    case ExprStmt(_, _) => []
    case AssignStmt(_, _, _) => []
    case IfStmt(_, _, thenStmts, elseStmts) => MainIdsOfStmts(thenStmts) + MainIdsOfStmts(elseStmts)
    case WhileStmt(_, _, stmts) => MainIdsOfStmts(stmts)
    case LetStmt(_, defs, stmts) => MainIdsOfDefs(defs) + MainIdsOfStmts(stmts)
  }

  function MainIdsOfStmts(ss: seq<Stmt>): seq<NodeId>
    decreases ss, 1
  {
    if |ss| == 0 then [] else MainIdsOfStmts(ss[..|ss| - 1]) + MainIdsOfStmt(ss[|ss| - 1])
  }

  /** The tables' entries for the given nodes, concatenated in order (absent entries add nothing). */
  function Concat(table: map<NodeId, seq<Instr>>, ids: seq<NodeId>): seq<Instr>
    decreases |ids|
  {
    if |ids| == 0 then []
    else Concat(table, ids[..|ids| - 1]) + (if ids[|ids| - 1] in table then table[ids[|ids| - 1]] else [])
  }

  lemma {:induction false} ConcatAppend(table: map<NodeId, seq<Instr>>, a: seq<NodeId>, b: seq<NodeId>)
    ensures Concat(table, a + b) == Concat(table, a) + Concat(table, b)
    decreases |b|
  {
    if |b| == 0 {
      assert a + b == a;
    } else {
      var n := |b| - 1;
      assert (a + b)[..|a + b| - 1] == a + b[..n];
      ConcatAppend(table, a, b[..n]);
    }
  }

  /** `main` after a walk: the frame of the last function named `main` reached, else as before. */
  function LastMain(mem: MemAttrs, ids: seq<NodeId>, before: Option<Frame>): Option<Frame> {
    if |ids| == 0 then before else FrameOf(mem, ids[|ids| - 1])
  }

  lemma LastMainAppend(mem: MemAttrs, a: seq<NodeId>, b: seq<NodeId>, before: Option<Frame>)
    ensures LastMain(mem, a + b, before) == LastMain(mem, b, LastMain(mem, a, before))
  {
    if |b| > 0 {
      assert (a + b)[|a + b| - 1] == b[|b| - 1];
    } else {
      assert a + b == a;
    }
  }

  /** The walk a code-segment step made from `s` to `s2`, given the reference lists. */
  predicate Extends(s: Seg, s2: Seg, code: map<NodeId, seq<Instr>>, mem: MemAttrs,
                    funs: seq<NodeId>, globals: seq<NodeId>, mains: seq<NodeId>) {
    s2.funs == s.funs + Concat(code, funs) &&
    s2.init == s.init + Concat(code, globals) &&
    s2.main == LastMain(mem, mains, s.main)
  }

  lemma ExtendsTrans(s: Seg, s1: Seg, s2: Seg, code: map<NodeId, seq<Instr>>, mem: MemAttrs,
                     f1: seq<NodeId>, g1: seq<NodeId>, m1: seq<NodeId>,
                     f2: seq<NodeId>, g2: seq<NodeId>, m2: seq<NodeId>)
    requires Extends(s, s1, code, mem, f1, g1, m1) && Extends(s1, s2, code, mem, f2, g2, m2)
    ensures Extends(s, s2, code, mem, f1 + f2, g1 + g2, m1 + m2)
  {
    ConcatAppend(code, f1, f2);
    ConcatAppend(code, g1, g2);
    LastMainAppend(mem, m1, m2, s.main);
  }

  /**
   * The code segment walk adds exactly the code of the functions with a
   * body in preorder and the initializing code of the globals in order,
   * and leaves `main` at the frame of the last function named `main`.
   */
  lemma {:induction false} DefSegOrder(d: Def, code: map<NodeId, seq<Instr>>, mem: MemAttrs, s: Seg)
    requires DefSeg(d, code, mem, s).Ok?
    ensures Extends(s, DefSeg(d, code, mem, s).value, code, mem, FunIdsOfDef(d), GlobalIdsOfDef(d, mem), MainIdsOfDef(d))
    decreases d, 0
  {
    match d
    case FunDef(id, name, _, stmts) =>
      if |stmts| > 0 {
        var s0 := s.(funs := s.funs + code[id]);
        StmtsSegOrder(stmts, code, mem, s0);
        var s1 := StmtsSeg(stmts, code, mem, s0).value;
        assert Concat(code, [id]) == code[id] by { assert [id][..0] == []; }
        assert Extends(s, s0, code, mem, [id], [], []);
        ExtendsTrans(s, s0, s1, code, mem, [id], [], [], FunIdsOfStmts(stmts), GlobalIdsOfStmts(stmts, mem), MainIdsOfStmts(stmts));
        var own := if name == "main" then [id] else [];
        assert [] + GlobalIdsOfStmts(stmts, mem) == GlobalIdsOfStmts(stmts, mem);
        assert [] + MainIdsOfStmts(stmts) == MainIdsOfStmts(stmts);
        LastMainAppend(mem, MainIdsOfStmts(stmts), own, s.main);
        assert Concat(code, []) == [];
        assert MainIdsOfStmts(stmts) + own == MainIdsOfDef(d);
        assert GlobalIdsOfStmts(stmts, mem) + [] == GlobalIdsOfStmts(stmts, mem);
      } else {
        assert s.funs + [] == s.funs && s.init + [] == s.init;
      }
    case VarDef(id, _, _) =>
      if mem.varAccess[id].AbsAccess? {
        assert Concat(code, [id]) == code[id] by { assert [id][..0] == []; }
      }
      assert s.funs + [] == s.funs && s.init + [] == s.init;
  }

  lemma {:induction false} DefsSegOrder(defs: seq<Def>, code: map<NodeId, seq<Instr>>, mem: MemAttrs, s: Seg)
    requires DefsSeg(defs, code, mem, s).Ok?
    ensures Extends(s, DefsSeg(defs, code, mem, s).value, code, mem, FunIdsOfDefs(defs), GlobalIdsOfDefs(defs, mem), MainIdsOfDefs(defs))
    decreases defs, 1
  {
    if |defs| == 0 {
      assert s.funs + [] == s.funs && s.init + [] == s.init;
    } else {
      var pre := defs[..|defs| - 1];
      var s1 := DefsSeg(pre, code, mem, s).value;
      DefsSegOrder(pre, code, mem, s);
      DefSegOrder(defs[|defs| - 1], code, mem, s1);
      ExtendsTrans(s, s1, DefsSeg(defs, code, mem, s).value, code, mem,
        FunIdsOfDefs(pre), GlobalIdsOfDefs(pre, mem), MainIdsOfDefs(pre),
        FunIdsOfDef(defs[|defs| - 1]), GlobalIdsOfDef(defs[|defs| - 1], mem), MainIdsOfDef(defs[|defs| - 1]));
    }
  }

  lemma {:induction false} StmtSegOrder(st: Stmt, code: map<NodeId, seq<Instr>>, mem: MemAttrs, s: Seg)
    requires StmtSeg(st, code, mem, s).Ok?
    ensures Extends(s, StmtSeg(st, code, mem, s).value, code, mem, FunIdsOfStmt(st), GlobalIdsOfStmt(st, mem), MainIdsOfStmt(st))
    decreases st, 0
  {
    var s2 := StmtSeg(st, code, mem, s).value;
    match st
    case ExprStmt(_, _) =>
      assert s.funs + [] == s.funs && s.init + [] == s.init;
    case AssignStmt(_, _, _) =>
      assert s.funs + [] == s.funs && s.init + [] == s.init;
    case IfStmt(_, _, thenStmts, elseStmts) =>
      var s1 := StmtsSeg(thenStmts, code, mem, s).value;
      StmtsSegOrder(thenStmts, code, mem, s);
      StmtsSegOrder(elseStmts, code, mem, s1);
      ExtendsTrans(s, s1, s2, code, mem,
        FunIdsOfStmts(thenStmts), GlobalIdsOfStmts(thenStmts, mem), MainIdsOfStmts(thenStmts),
        FunIdsOfStmts(elseStmts), GlobalIdsOfStmts(elseStmts, mem), MainIdsOfStmts(elseStmts));
    case WhileStmt(_, _, stmts) =>
      StmtsSegOrder(stmts, code, mem, s);
    case LetStmt(_, defs, stmts) =>
      var s1 := DefsSeg(defs, code, mem, s).value;
      DefsSegOrder(defs, code, mem, s);
      StmtsSegOrder(stmts, code, mem, s1);
      ExtendsTrans(s, s1, s2, code, mem,
        FunIdsOfDefs(defs), GlobalIdsOfDefs(defs, mem), MainIdsOfDefs(defs),
        FunIdsOfStmts(stmts), GlobalIdsOfStmts(stmts, mem), MainIdsOfStmts(stmts));
  }

  lemma {:induction false} StmtsSegOrder(ss: seq<Stmt>, code: map<NodeId, seq<Instr>>, mem: MemAttrs, s: Seg)
    requires StmtsSeg(ss, code, mem, s).Ok?
    ensures Extends(s, StmtsSeg(ss, code, mem, s).value, code, mem, FunIdsOfStmts(ss), GlobalIdsOfStmts(ss, mem), MainIdsOfStmts(ss))
    decreases ss, 1
  {
    if |ss| == 0 {
      assert s.funs + [] == s.funs && s.init + [] == s.init;
    } else {
      var pre := ss[..|ss| - 1];
      var s1 := StmtsSeg(pre, code, mem, s).value;
      StmtsSegOrder(pre, code, mem, s);
      StmtSegOrder(ss[|ss| - 1], code, mem, s1);
      ExtendsTrans(s, s1, StmtsSeg(ss, code, mem, s).value, code, mem,
        FunIdsOfStmts(pre), GlobalIdsOfStmts(pre, mem), MainIdsOfStmts(pre),
        FunIdsOfStmt(ss[|ss| - 1]), GlobalIdsOfStmt(ss[|ss| - 1], mem), MainIdsOfStmt(ss[|ss| - 1]));
    }
  }

  /**
   * The code segment: the initializing code of the global variables in
   * tree order, the start-up stub calling `main` with the frame of the
   * last function named `main` (none if there is no such function with a
   * body), then the code of every function with a body in preorder.
   */
  lemma CodeSegmentLayout(program: seq<Def>, code: map<NodeId, seq<Instr>>, mem: MemAttrs)
    requires CodeSegmentOf(program, code, mem).Ok?
    ensures CodeSegmentOf(program, code, mem).value ==
      Concat(code, GlobalIdsOfDefs(program, mem)) +
      Stub(LastMain(mem, MainIdsOfDefs(program), None)) +
      Concat(code, FunIdsOfDefs(program))
  {
    DefsSegOrder(program, code, mem, Seg([], [], None));
    var s := DefsSeg(program, code, mem, Seg([], [], None)).value;
    LayoutFromEmpty(s, code, mem, FunIdsOfDefs(program), GlobalIdsOfDefs(program, mem), MainIdsOfDefs(program));
  }

  /** What a walk from the empty segments leaves, laid out as the code segment. */
  lemma LayoutFromEmpty(s: Seg, code: map<NodeId, seq<Instr>>, mem: MemAttrs,
                        funs: seq<NodeId>, globals: seq<NodeId>, mains: seq<NodeId>)
    requires Extends(Seg([], [], None), s, code, mem, funs, globals, mains)
    ensures s.init + Stub(s.main) + s.funs == Concat(code, globals) + Stub(LastMain(mem, mains, None)) + Concat(code, funs)
  {
    assert [] + Concat(code, globals) == s.init;
    assert [] + Concat(code, funs) == s.funs;
  }

  // ---------------------------------------------------------------------
  // The data segment
  // ---------------------------------------------------------------------

  /** The data of a node, if it has any. */
  function DataOf(data: map<NodeId, seq<Instr>>, id: NodeId): seq<Instr> {
    if id in data then data[id] else []
  }

  /** The data segment generator visits variables and literal atoms; everything else adds nothing. */
  function ExprData(e: Expr, data: map<NodeId, seq<Instr>>): seq<Instr>
    decreases e, 1
  {
    match e
    case AtomExpr(a) => DataOf(data, a.id)
    case VarExpr(_, _) => []
    case CallExpr(_, _, args) => ExprsData(args, data)
    case UnExpr(_, _, sub) => ExprData(sub, data)
    case BinExpr(_, _, fstExpr, sndExpr) => ExprData(fstExpr, data) + ExprData(sndExpr, data)
  }

  function ExprsData(es: seq<Expr>, data: map<NodeId, seq<Instr>>): seq<Instr>
    decreases es, 0
  {
    if |es| == 0 then [] else ExprsData(es[..|es| - 1], data) + ExprData(es[|es| - 1], data)
  }

  function InitsData(inits: seq<Init>, data: map<NodeId, seq<Instr>>): seq<Instr>
    decreases |inits|
  {
    if |inits| == 0 then []
    else
      var last := inits[|inits| - 1];
      InitsData(inits[..|inits| - 1], data) + DataOf(data, last.num.id) + DataOf(data, last.value.id)
  }

  function DefData(d: Def, data: map<NodeId, seq<Instr>>): seq<Instr>
    decreases d, 0
  {
    match d
    case FunDef(_, _, _, stmts) => StmtsData(stmts, data)
    case VarDef(id, _, inits) => DataOf(data, id) + InitsData(inits, data)
  }

  function DefsData(defs: seq<Def>, data: map<NodeId, seq<Instr>>): seq<Instr>
    decreases defs, 1
  {
    if |defs| == 0 then [] else DefsData(defs[..|defs| - 1], data) + DefData(defs[|defs| - 1], data)
  }

  function StmtData(s: Stmt, data: map<NodeId, seq<Instr>>): seq<Instr>
    decreases s, 0
  {
    match s
    case ExprStmt(_, e) => ExprData(e, data)
    case AssignStmt(_, dstExpr, srcExpr) => ExprData(dstExpr, data) + ExprData(srcExpr, data)
    case IfStmt(_, cond, thenStmts, elseStmts) =>
      ExprData(cond, data) + StmtsData(thenStmts, data) + StmtsData(elseStmts, data)
    case WhileStmt(_, cond, stmts) => ExprData(cond, data) + StmtsData(stmts, data)
    case LetStmt(_, defs, stmts) => DefsData(defs, data) + StmtsData(stmts, data)
  }

  function StmtsData(ss: seq<Stmt>, data: map<NodeId, seq<Instr>>): seq<Instr>
    decreases ss, 1
  {
    if |ss| == 0 then [] else StmtsData(ss[..|ss| - 1], data) + StmtData(ss[|ss| - 1], data)
  }

  // --- reference definitions: the variables and the atoms of a tree

  function VarIdsOfDef(d: Def): seq<NodeId>
    decreases d, 0
  {
    match d
    case FunDef(_, _, _, stmts) => VarIdsOfStmts(stmts)
    case VarDef(id, _, _) => [id]
  }

  function VarIdsOfDefs(defs: seq<Def>): seq<NodeId>
    decreases defs, 1
  {
    if |defs| == 0 then [] else VarIdsOfDefs(defs[..|defs| - 1]) + VarIdsOfDef(defs[|defs| - 1])
  }

  function VarIdsOfStmt(s: Stmt): seq<NodeId>
    decreases s, 0
  {
    match s
    case ExprStmt(_, _) => []
    case AssignStmt(_, _, _) => []
    case IfStmt(_, _, thenStmts, elseStmts) => VarIdsOfStmts(thenStmts) + VarIdsOfStmts(elseStmts)
    case WhileStmt(_, _, stmts) => VarIdsOfStmts(stmts)
    case LetStmt(_, defs, stmts) => VarIdsOfDefs(defs) + VarIdsOfStmts(stmts)
  }

  function VarIdsOfStmts(ss: seq<Stmt>): seq<NodeId>
    decreases ss, 1
  {
    if |ss| == 0 then [] else VarIdsOfStmts(ss[..|ss| - 1]) + VarIdsOfStmt(ss[|ss| - 1])
  }

  /** The ids of the literal atoms of a tree (in expressions and initializers). */
  function AtomsOfExpr(e: Expr): set<NodeId>
    decreases e, 1
  {
    match e
    case AtomExpr(a) => {a.id}
    case VarExpr(_, _) => {}
    case CallExpr(_, _, args) => AtomsOfExprs(args)
    case UnExpr(_, _, sub) => AtomsOfExpr(sub)
    case BinExpr(_, _, fstExpr, sndExpr) => AtomsOfExpr(fstExpr) + AtomsOfExpr(sndExpr)
  }

  function AtomsOfExprs(es: seq<Expr>): set<NodeId>
    decreases es, 0
  {
    if |es| == 0 then {} else AtomsOfExprs(es[..|es| - 1]) + AtomsOfExpr(es[|es| - 1])
  }

  function AtomsOfInits(inits: seq<Init>): set<NodeId>
    decreases |inits|
  {
    if |inits| == 0 then {}
    else AtomsOfInits(inits[..|inits| - 1]) + {inits[|inits| - 1].num.id, inits[|inits| - 1].value.id}
  }

  function AtomsOfDef(d: Def): set<NodeId>
    decreases d, 0
  {
    match d
    case FunDef(_, _, _, stmts) => AtomsOfStmts(stmts)
    case VarDef(_, _, inits) => AtomsOfInits(inits)
  }

  function AtomsOfDefs(defs: seq<Def>): set<NodeId>
    decreases defs, 1
  {
    if |defs| == 0 then {} else AtomsOfDefs(defs[..|defs| - 1]) + AtomsOfDef(defs[|defs| - 1])
  }

  function AtomsOfStmt(s: Stmt): set<NodeId>
    decreases s, 0
  {
    match s
    case ExprStmt(_, e) => AtomsOfExpr(e)
    case AssignStmt(_, dstExpr, srcExpr) => AtomsOfExpr(dstExpr) + AtomsOfExpr(srcExpr)
    case IfStmt(_, cond, thenStmts, elseStmts) => AtomsOfExpr(cond) + AtomsOfStmts(thenStmts) + AtomsOfStmts(elseStmts)
    case WhileStmt(_, cond, stmts) => AtomsOfExpr(cond) + AtomsOfStmts(stmts)
    case LetStmt(_, defs, stmts) => AtomsOfDefs(defs) + AtomsOfStmts(stmts)
  }

  function AtomsOfStmts(ss: seq<Stmt>): set<NodeId>
    decreases ss, 1
  {
    if |ss| == 0 then {} else AtomsOfStmts(ss[..|ss| - 1]) + AtomsOfStmt(ss[|ss| - 1])
  }

  lemma {:induction false} AtomFreeExpr(e: Expr, data: map<NodeId, seq<Instr>>)
    requires AtomsOfExpr(e) !! data.Keys
    ensures ExprData(e, data) == []
    decreases e, 1
  {
    match e
    case AtomExpr(a) =>
      assert a.id in AtomsOfExpr(e);
    case VarExpr(_, _) =>
    case CallExpr(_, _, args) => AtomFreeExprs(args, data);
    case UnExpr(_, _, sub) => AtomFreeExpr(sub, data);
    case BinExpr(_, _, fstExpr, sndExpr) =>
      AtomFreeExpr(fstExpr, data);
      AtomFreeExpr(sndExpr, data);
  }

  lemma {:induction false} AtomFreeExprs(es: seq<Expr>, data: map<NodeId, seq<Instr>>)
    requires AtomsOfExprs(es) !! data.Keys
    ensures ExprsData(es, data) == []
    decreases es, 0
  {
    if |es| > 0 {
      AtomFreeExprs(es[..|es| - 1], data);
      AtomFreeExpr(es[|es| - 1], data);
    }
  }

  lemma {:induction false} AtomFreeInits(inits: seq<Init>, data: map<NodeId, seq<Instr>>)
    requires AtomsOfInits(inits) !! data.Keys
    ensures InitsData(inits, data) == []
    decreases |inits|
  {
    if |inits| > 0 {
      var last := inits[|inits| - 1];
      assert last.num.id in AtomsOfInits(inits) && last.value.id in AtomsOfInits(inits);
      AtomFreeInits(inits[..|inits| - 1], data);
    }
  }

  /**
   * When no literal atom carries data (the code generator attaches data
   * only to variables), the data segment is every variable's data block in
   * tree order, variables without data adding nothing.
   */
  lemma {:induction false} DefDataOrder(d: Def, data: map<NodeId, seq<Instr>>)
    requires AtomsOfDef(d) !! data.Keys
    ensures DefData(d, data) == Concat(data, VarIdsOfDef(d))
    decreases d, 0
  {
    match d
    case FunDef(_, _, _, stmts) => StmtsDataOrder(stmts, data);
    case VarDef(id, _, inits) =>
      AtomFreeInits(inits, data);
      assert [id][..0] == [];
  }

  lemma {:induction false} DefsDataOrder(defs: seq<Def>, data: map<NodeId, seq<Instr>>)
    requires AtomsOfDefs(defs) !! data.Keys
    ensures DefsData(defs, data) == Concat(data, VarIdsOfDefs(defs))
    decreases defs, 1
  {
    if |defs| > 0 {
      var pre := defs[..|defs| - 1];
      DefsDataOrder(pre, data);
      DefDataOrder(defs[|defs| - 1], data);
      ConcatAppend(data, VarIdsOfDefs(pre), VarIdsOfDef(defs[|defs| - 1]));
    }
  }

  lemma {:induction false} StmtDataOrder(s: Stmt, data: map<NodeId, seq<Instr>>)
    requires AtomsOfStmt(s) !! data.Keys
    ensures StmtData(s, data) == Concat(data, VarIdsOfStmt(s))
    decreases s, 1
  {
    match s
    case ExprStmt(_, e) => AtomFreeExpr(e, data);
    case AssignStmt(_, dstExpr, srcExpr) =>
      AtomFreeExpr(dstExpr, data);
      AtomFreeExpr(srcExpr, data);
    case IfStmt(_, _, _, _) => IfStmtDataOrder(s, data);
    case WhileStmt(_, cond, stmts) =>
      AtomFreeExpr(cond, data);
      StmtsDataOrder(stmts, data);
      assert StmtData(s, data) == [] + StmtsData(stmts, data);
    case LetStmt(_, _, _) => LetStmtDataOrder(s, data);
  }

  lemma {:induction false} IfStmtDataOrder(s: Stmt, data: map<NodeId, seq<Instr>>)
    requires s.IfStmt? && AtomsOfStmt(s) !! data.Keys
    ensures StmtData(s, data) == Concat(data, VarIdsOfStmt(s))
    decreases s, 0
  {
    var t, e := s.thenStmts, s.elseStmts;
    AtomFreeExpr(s.cond, data);
    StmtsDataOrder(t, data);
    StmtsDataOrder(e, data);
    ConcatAppend(data, VarIdsOfStmts(t), VarIdsOfStmts(e));
    assert StmtData(s, data) == [] + StmtsData(t, data) + StmtsData(e, data);
    assert [] + StmtsData(t, data) == StmtsData(t, data);
  }

  lemma {:induction false} LetStmtDataOrder(s: Stmt, data: map<NodeId, seq<Instr>>)
    requires s.LetStmt? && AtomsOfStmt(s) !! data.Keys
    ensures StmtData(s, data) == Concat(data, VarIdsOfStmt(s))
    decreases s, 0
  {
    DefsDataOrder(s.defs, data);
    StmtsDataOrder(s.stmts, data);
    ConcatAppend(data, VarIdsOfDefs(s.defs), VarIdsOfStmts(s.stmts));
  }

  lemma {:induction false} StmtsDataOrder(ss: seq<Stmt>, data: map<NodeId, seq<Instr>>)
    requires AtomsOfStmts(ss) !! data.Keys
    ensures StmtsData(ss, data) == Concat(data, VarIdsOfStmts(ss))
    decreases ss, 2
  {
    if |ss| > 0 {
      var pre := ss[..|ss| - 1];
      StmtsDataOrder(pre, data);
      StmtDataOrder(ss[|ss| - 1], data);
      ConcatAppend(data, VarIdsOfStmts(pre), VarIdsOfStmt(ss[|ss| - 1]));
    }
  }

  /** Every entry a generator adds to the data table is keyed by one of the given variable ids. */
  predicate DataAddedOnly(before: CG, after: CG, ids: seq<NodeId>) {
    forall k | k in after.data :: k in before.data || k in ids
  }

  lemma {:induction false} DefGenData(d: Def, frame: Option<Frame>, at: Attrs, st: CG)
    requires DefGen(d, frame, at, st).Ok?
    ensures DataAddedOnly(st, DefGen(d, frame, at, st).value.st, VarIdsOfDef(d))
    decreases d, 0
  {
    match d
    case FunDef(id, _, _, stmts) =>
      StmtsGenData(stmts, Some(at.mem.frames[id]), at, st);
    case VarDef(id, _, _) =>
  }

  lemma {:induction false} DefsGenData(defs: seq<Def>, frame: Option<Frame>, at: Attrs, st: CG)
    requires DefsGen(defs, frame, at, st).Ok?
    ensures DataAddedOnly(st, DefsGen(defs, frame, at, st).value.st, VarIdsOfDefs(defs))
    decreases defs, 1
  {
    if |defs| > 0 {
      var pre := defs[..|defs| - 1];
      DefsGenData(pre, frame, at, st);
      var g := DefsGen(pre, frame, at, st).value;
      DefGenData(defs[|defs| - 1], frame, at, g.st);
    }
  }

  lemma {:induction false} StmtGenData(s: Stmt, frame: Option<Frame>, at: Attrs, st: CG)
    requires StmtGen(s, frame, at, st).Ok?
    ensures DataAddedOnly(st, StmtGen(s, frame, at, st).value.st, VarIdsOfStmt(s))
    decreases s, 1
  {
    match s
    case ExprStmt(_, _) =>
    case AssignStmt(_, _, _) =>
    case IfStmt(_, _, thenStmts, elseStmts) =>
      var st1 := st.(labelCounter := st.labelCounter + 1);
      StmtsGenData(thenStmts, frame, at, st1);
      StmtsGenData(elseStmts, frame, at, StmtsGen(thenStmts, frame, at, st1).value.st);
    case WhileStmt(_, _, stmts) =>
      StmtsGenData(stmts, frame, at, st.(labelCounter := st.labelCounter + 1));
    case LetStmt(_, defs, stmts) =>
      DefsGenData(defs, frame, at, st);
      StmtsGenData(stmts, frame, at, DefsGen(defs, frame, at, st).value.st);
  }

  lemma {:induction false} StmtsGenData(ss: seq<Stmt>, frame: Option<Frame>, at: Attrs, st: CG)
    requires StmtsGen(ss, frame, at, st).Ok?
    ensures DataAddedOnly(st, StmtsGen(ss, frame, at, st).value.st, VarIdsOfStmts(ss))
    decreases ss, 2
  {
    if |ss| > 0 {
      var pre := ss[..|ss| - 1];
      StmtsGenData(pre, frame, at, st);
      StmtGenData(ss[|ss| - 1], frame, at, StmtsGen(pre, frame, at, st).value.st);
    }
  }

  /** The code generator attaches data only to variable definitions of the program. */
  lemma GeneratedDataKeys(at: Attrs, program: seq<Def>)
    requires Generated(at, program).Ok?
    ensures forall k | k in Generated(at, program).value.data :: k in VarIdsOfDefs(program)
  {
    DefsGenData(program, None, at, CG(0, map[], map[]));
  }

  /**
   * For the tables the code generator builds, the data segment of a whole
   * program is every variable's data block in tree order, provided no literal
   * atom shares its node id with a variable definition.
   */
  lemma GeneratedDataOrder(at: Attrs, program: seq<Def>)
    requires Generated(at, program).Ok?
    requires forall i | 0 <= i < |VarIdsOfDefs(program)| :: VarIdsOfDefs(program)[i] !in AtomsOfDefs(program)
    ensures DefsData(program, Generated(at, program).value.data) ==
      Concat(Generated(at, program).value.data, VarIdsOfDefs(program))
  {
    var data := Generated(at, program).value.data;
    var ids := VarIdsOfDefs(program);
    GeneratedDataKeys(at, program);
    forall k | k in data
      ensures k !in AtomsOfDefs(program)
    {
      var i :| 0 <= i < |ids| && ids[i] == k;
    }
    DefsDataOrder(program, data);
  }

  // ---------------------------------------------------------------------
  // The generators
  // ---------------------------------------------------------------------

  lemma DefsSegStep(defs: seq<Def>, i: nat, code: map<NodeId, seq<Instr>>, mem: MemAttrs, s: Seg, s1: Seg)
    requires i < |defs| && DefsSeg(defs[..i], code, mem, s) == Ok(s1)
    ensures DefsSeg(defs[..i + 1], code, mem, s) == DefSeg(defs[i], code, mem, s1)
  {
    assert defs[..i + 1][..i] == defs[..i];
  }

  lemma StmtsSegStep(ss: seq<Stmt>, i: nat, code: map<NodeId, seq<Instr>>, mem: MemAttrs, s: Seg, s1: Seg)
    requires i < |ss| && StmtsSeg(ss[..i], code, mem, s) == Ok(s1)
    ensures StmtsSeg(ss[..i + 1], code, mem, s) == StmtSeg(ss[i], code, mem, s1)
  {
    assert ss[..i + 1][..i] == ss[..i];
  }

  lemma {:induction false} DefsSegPrefixFailure(defs: seq<Def>, n: nat, code: map<NodeId, seq<Instr>>, mem: MemAttrs, s: Seg)
    requires n <= |defs| && DefsSeg(defs[..n], code, mem, s).Fail?
    ensures DefsSeg(defs, code, mem, s) == Fail(DefsSeg(defs[..n], code, mem, s).report)
    decreases |defs| - n
  {
    if n < |defs| {
      assert defs[..n + 1][..n] == defs[..n];
      DefsSegPrefixFailure(defs, n + 1, code, mem, s);
    } else {
      assert defs[..n] == defs;
    }
  }

  lemma {:induction false} StmtsSegPrefixFailure(ss: seq<Stmt>, n: nat, code: map<NodeId, seq<Instr>>, mem: MemAttrs, s: Seg)
    requires n <= |ss| && StmtsSeg(ss[..n], code, mem, s).Fail?
    ensures StmtsSeg(ss, code, mem, s) == Fail(StmtsSeg(ss[..n], code, mem, s).report)
    decreases |ss| - n
  {
    if n < |ss| {
      assert ss[..n + 1][..n] == ss[..n];
      StmtsSegPrefixFailure(ss, n + 1, code, mem, s);
    } else {
      assert ss[..n] == ss;
    }
  }

  /** CodeSegmentGenerator: the two growing segments and `main`'s frame. */
  class CodeSegmentGenerator {
    const code: map<NodeId, seq<Instr>>
    const mem: MemAttrs
    var codeInitSegment: seq<Instr>
    var codeFunsSegment: seq<Instr>
    var main: Option<Frame>

    constructor (code: map<NodeId, seq<Instr>>, mem: MemAttrs)
      ensures this.code == code && this.mem == mem
      ensures codeInitSegment == [] && codeFunsSegment == [] && main == None
    {
      this.code := code;
      this.mem := mem;
      codeInitSegment := [];
      codeFunsSegment := [];
      main := None;
    }

    function State(): Seg
      reads this
    {
      Seg(codeInitSegment, codeFunsSegment, main)
    }

    /** The state is the walk's result, or the walk's report was raised. */
    predicate Walked(o: Outcome, w: Result<Seg>)
      reads this
    {
      match w
      case Ok(s) => o == Pass && State() == s
      case Fail(rep) => o == Raise(rep)
    }

    /** codeSegment(): walks the program, then appends the stub and the functions to the initializations. */
    method CodeSegment(program: seq<Def>) returns (r: Result<seq<Instr>>)
      requires State() == Seg([], [], None)
      modifies this
      ensures r == CodeSegmentOf(program, code, mem)
    {
      ghost var w := DefsSeg(program, code, mem, State());
      var o := VisitDefs(program);
      if o.Raise? {
        return Fail(o.report);
      }
      assert w == Ok(State());
      ghost var s := State();
      codeInitSegment := codeInitSegment + [PUSH(0), NAME("main"), CALL(main)];
      codeInitSegment := codeInitSegment + [PUSH(0), NAME("exit"), CALL(None)];
      assert codeInitSegment == s.init + Stub(s.main);
      var codeSegment := codeInitSegment + codeFunsSegment;
      r := Ok(codeSegment);
    }

    method VisitDefs(defs: seq<Def>) returns (o: Outcome)
      modifies this
      ensures Walked(o, DefsSeg(defs, code, mem, old(State())))
      decreases defs, 2
    {
      ghost var s0 := State();
      var i := 0;
      while i < |defs|
        invariant 0 <= i <= |defs|
        invariant DefsSeg(defs[..i], code, mem, s0) == Ok(State())
      {
        DefsSegStep(defs, i, code, mem, s0, State());
        o := VisitDef(defs[i]);
        if o.Raise? {
          DefsSegPrefixFailure(defs, i + 1, code, mem, s0);
          return;
        }
        i := i + 1;
      }
      assert defs[..i] == defs;
      o := Pass;
    }

    /** visit(FunDef) and visit(VarDef). */
    method VisitDef(d: Def) returns (o: Outcome)
      modifies this
      ensures Walked(o, DefSeg(d, code, mem, old(State())))
      decreases d, 1
    {
      match d {
        case FunDef(id, name, _, stmts) =>
          if |stmts| == 0 {
            return Pass;
          }
          if id !in code {
            return Raise(Crash("addAll of a null code list"));
          }
          codeFunsSegment := codeFunsSegment + code[id];
          o := VisitStmts(stmts);
          if o.Raise? {
            return;
          }
          if name == "main" {
            main := if id in mem.frames then Some(mem.frames[id]) else None;
          }
        case VarDef(id, _, _) =>
          if id !in mem.varAccess {
            return Raise(Crash("switch on a null access"));
          }
          match mem.varAccess[id] {
            case AbsAccess(_, _, _) =>
              if id !in code {
                return Raise(Crash("addAll of a null code list"));
              }
              codeInitSegment := codeInitSegment + code[id];
            case RelAccess(_, _, _, _, _) =>
          }
          o := Pass;
      }
    }

    method VisitStmts(ss: seq<Stmt>) returns (o: Outcome)
      modifies this
      ensures Walked(o, StmtsSeg(ss, code, mem, old(State())))
      decreases ss, 2
    {
      ghost var s0 := State();
      var i := 0;
      while i < |ss|
        invariant 0 <= i <= |ss|
        invariant StmtsSeg(ss[..i], code, mem, s0) == Ok(State())
      {
        StmtsSegStep(ss, i, code, mem, s0, State());
        o := VisitStmt(ss[i]);
        if o.Raise? {
          StmtsSegPrefixFailure(ss, i + 1, code, mem, s0);
          return;
        }
        i := i + 1;
      }
      assert ss[..i] == ss;
      o := Pass;
    }

    method VisitStmt(st: Stmt) returns (o: Outcome)
      modifies this
      ensures Walked(o, StmtSeg(st, code, mem, old(State())))
      decreases st, 1
    {
      match st {
        case ExprStmt(_, _) => o := Pass;
        case AssignStmt(_, _, _) => o := Pass;
        case IfStmt(_, _, thenStmts, elseStmts) =>
          o := VisitStmts(thenStmts);
          if o.Raise? {
            return;
          }
          o := VisitStmts(elseStmts);
        case WhileStmt(_, _, stmts) =>
          o := VisitStmts(stmts);
        case LetStmt(_, defs, stmts) =>
          o := VisitDefs(defs);
          if o.Raise? {
            return;
          }
          o := VisitStmts(stmts);
      }
    }
  }

  /** DataSegmentGenerator: the growing data segment. */
  class DataSegmentGenerator {
    const data: map<NodeId, seq<Instr>>
    var dataSegment: seq<Instr>

    constructor (data: map<NodeId, seq<Instr>>)
      ensures this.data == data && dataSegment == []
    {
      this.data := data;
      dataSegment := [];
    }

    /** dataSegment(): walks the program, appending the data of every node that has some. */
    method DataSegment(program: seq<Def>) returns (r: seq<Instr>)
      requires dataSegment == []
      modifies this
      ensures r == DefsData(program, data)
    {
      VisitDefs(program);
      r := dataSegment;
    }

    /** Appends a node's data when it has any. */
    method AddData(id: NodeId)
      modifies this
      ensures dataSegment == old(dataSegment) + DataOf(data, id)
    {
      if id in data {
        dataSegment := dataSegment + data[id];
      }
    }

    method VisitDefs(defs: seq<Def>)
      modifies this
      ensures dataSegment == old(dataSegment) + DefsData(defs, data)
      decreases defs, 1
    {
      ghost var d0 := dataSegment;
      for i := 0 to |defs|
        invariant dataSegment == d0 + DefsData(defs[..i], data)
      {
        assert defs[..i + 1][..i] == defs[..i];
        VisitDef(defs[i]);
      }
      assert defs[..|defs|] == defs;
    }

    method VisitDef(d: Def)
      modifies this
      ensures dataSegment == old(dataSegment) + DefData(d, data)
      decreases d, 0
    {
      match d {
        case FunDef(_, _, _, stmts) => VisitStmts(stmts);
        case VarDef(id, _, inits) =>
          ghost var d0 := dataSegment;
          AddData(id);
          VisitInits(inits);
          AppendAssoc(d0, DataOf(data, id), InitsData(inits, data));
      }
    }

    /** The atoms of the initializers: each count, then its value. */
    method VisitInits(inits: seq<Init>)
      modifies this
      ensures dataSegment == old(dataSegment) + InitsData(inits, data)
    {
      ghost var d0 := dataSegment;
      for i := 0 to |inits|
        invariant dataSegment == d0 + InitsData(inits[..i], data)
      {
        assert inits[..i + 1][..i] == inits[..i];
        AddData(inits[i].num.id);
        AddData(inits[i].value.id);
        AppendAssoc(d0, InitsData(inits[..i], data) + DataOf(data, inits[i].num.id), DataOf(data, inits[i].value.id));
      }
      assert inits[..|inits|] == inits;
    }

    method VisitStmts(ss: seq<Stmt>)
      modifies this
      ensures dataSegment == old(dataSegment) + StmtsData(ss, data)
      decreases ss, 1
    {
      ghost var d0 := dataSegment;
      for i := 0 to |ss|
        invariant dataSegment == d0 + StmtsData(ss[..i], data)
      {
        assert ss[..i + 1][..i] == ss[..i];
        VisitStmt(ss[i]);
      }
      assert ss[..|ss|] == ss;
    }

    method VisitStmt(s: Stmt)
      modifies this
      ensures dataSegment == old(dataSegment) + StmtData(s, data)
      decreases s, 0
    {
      ghost var d0 := dataSegment;
      match s {
        case ExprStmt(_, e) => VisitExpr(e);
        case AssignStmt(_, dstExpr, srcExpr) =>
          VisitExpr(dstExpr);
          VisitExpr(srcExpr);
          AppendAssoc(d0, ExprData(dstExpr, data), ExprData(srcExpr, data));
        case IfStmt(_, cond, thenStmts, elseStmts) =>
          VisitExpr(cond);
          VisitStmts(thenStmts);
          VisitStmts(elseStmts);
          AppendAssoc3(d0, ExprData(cond, data), StmtsData(thenStmts, data), StmtsData(elseStmts, data));
        case WhileStmt(_, cond, stmts) =>
          VisitExpr(cond);
          VisitStmts(stmts);
          AppendAssoc(d0, ExprData(cond, data), StmtsData(stmts, data));
        case LetStmt(_, defs, stmts) =>
          VisitDefs(defs);
          VisitStmts(stmts);
          AppendAssoc(d0, DefsData(defs, data), StmtsData(stmts, data));
      }
    }

    method VisitExpr(e: Expr)
      modifies this
      ensures dataSegment == old(dataSegment) + ExprData(e, data)
      decreases e, 1
    {
      match e {
        case AtomExpr(a) => AddData(a.id);
        case VarExpr(_, _) =>
        case CallExpr(_, _, args) =>
          ghost var d0 := dataSegment;
          for i := 0 to |args|
            invariant dataSegment == d0 + ExprsData(args[..i], data)
          {
            assert args[..i + 1][..i] == args[..i];
            VisitExpr(args[i]);
          }
          assert args[..|args|] == args;
        case UnExpr(_, _, sub) => VisitExpr(sub);
        case BinExpr(_, _, fstExpr, sndExpr) =>
          ghost var d0 := dataSegment;
          VisitExpr(fstExpr);
          VisitExpr(sndExpr);
          AppendAssoc(d0, ExprData(fstExpr, data), ExprData(sndExpr, data));
      }
    }
  }

  lemma AppendAssoc(a: seq<Instr>, b: seq<Instr>, c: seq<Instr>)
    ensures a + b + c == a + (b + c)
  {
  }

  lemma AppendAssoc3(a: seq<Instr>, b: seq<Instr>, c: seq<Instr>, d: seq<Instr>)
    ensures a + b + c + d == a + (b + c + d)
  {
  }

  /** The whole back end's segments for a program, starting from fresh generators. */
  method Segments(program: seq<Def>, code: map<NodeId, seq<Instr>>, data: map<NodeId, seq<Instr>>, mem: MemAttrs)
    returns (codeSegment: Result<seq<Instr>>, dataSegment: seq<Instr>)
    ensures codeSegment == CodeSegmentOf(program, code, mem)
    ensures dataSegment == DefsData(program, data)
  {
    var cg := new CodeSegmentGenerator(code, mem);
    codeSegment := cg.CodeSegment(program);
    var dg := new DataSegmentGenerator(data);
    dataSegment := dg.DataSegment(program);
  }
}
