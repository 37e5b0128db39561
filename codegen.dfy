/**
 * Instruction selection of PINS'24: every construct of the tree is lowered
 * to a fixed sequence of instructions of the PDM stack machine, using the
 * frames and accesses computed by the memory phase.
 *
 * The generator keeps one counter from which every synthesized label is
 * made unique, and two attribute tables: the code of every function and of
 * every variable definition, and the data of every variable definition.
 */
module CodeGen {
  import opened Ast
  import opened Numbers
  import opened Memory

  /** The only register the machine exposes to generated code. */
  datatype Reg = FP

  /** Operators of the machine. */
  datatype Oper = ADD | SUB | MUL | DIV | MOD | EQU | NEQ | LTH | GTH | LEQ | GEQ | AND | OR | NOT | NEG

  /**
   * PDM instructions.  LABEL marks an address in either segment; DATA and
   * SIZE only occur in the data segment.  CALL carries a frame that may be
   * absent (the call of `exit` in the start-up code carries none).
   */
  datatype Instr =
    | LABEL(name: string)
    | PUSH(value: int)
    | POPN
    | REGN(reg: Reg)
    | OPER(oper: Oper)
    | LOAD
    | SAVE
    | NAME(name: string)
    | CALL(callFrame: Option<Frame>)
    | RETN(retFrame: Frame)
    | UJMP
    | CJMP
    | INIT
    | DATA(value: int)
    | SIZE(size: int)

  /** The attributes the generator reads: name resolution and the memory tables. */
  datatype Attrs = Attrs(defOf: map<NodeId, DefRef>, mem: MemAttrs)

  // ---------------------------------------------------------------------
  // Small instruction sequences
  // ---------------------------------------------------------------------

  /** `n` LOADs (none for `n <= 0`): the static-link chain followed `n` times. */
  function Loads(n: int): (r: seq<Instr>)
    ensures |r| == (if n > 0 then n else 0)
    ensures forall i | 0 <= i < |r| :: r[i] == LOAD
    decreases n
  {
    if n <= 0 then [] else Loads(n - 1) + [LOAD]
  }

  /** One step of the call's frame walk: the word at FP - 4 of the frame on top. */
  const FrameStep: seq<Instr> := [PUSH(-4), OPER(ADD), LOAD]

  /** `n` frame-walk steps (none for `n <= 0`). */
  function FrameWalk(n: int): (r: seq<Instr>)
    ensures |r| == 3 * (if n > 0 then n else 0)
    decreases n
  {
    if n <= 0 then [] else FrameWalk(n - 1) + FrameStep
  }

  /** Step `i` of a frame walk is the `i % 3`-th instruction of a step. */
  lemma {:induction false} FrameWalkShape(n: int)
    ensures forall i | 0 <= i < |FrameWalk(n)| :: FrameWalk(n)[i] == FrameStep[i % 3]
    decreases n
  {
    if n > 0 {
      FrameWalkShape(n - 1);
      var w := FrameWalk(n - 1);
      forall i | 0 <= i < |FrameWalk(n)| ensures FrameWalk(n)[i] == FrameStep[i % 3] {
        if i >= |w| {
          assert FrameWalk(n)[i] == FrameStep[i - |w|];
          assert i % 3 == i - |w| by { assert |w| % 3 == 0; }
        }
      }
    }
  }

  lemma {:induction false} FrameWalkNoLabels(n: int)
    ensures LabelNames(FrameWalk(n)) == []
    decreases n
  {
    if n > 0 {
      FrameWalkNoLabels(n - 1);
      NoLabelInstrs(FrameStep);
      LabelNamesAppend(FrameWalk(n - 1), FrameStep);
    }
  }

  /** One PUSH per value, in order. */
  function Pushes(vs: seq<int>): (r: seq<Instr>)
    ensures |r| == |vs| && forall i | 0 <= i < |vs| :: r[i] == PUSH(vs[i])
  {
    seq(|vs|, i requires 0 <= i < |vs| => PUSH(vs[i]))
  }

  /** One DATA word per value, in order. */
  function Datas(vs: seq<int>): (r: seq<Instr>)
    ensures |r| == |vs| && forall i | 0 <= i < |vs| :: r[i] == DATA(vs[i])
  {
    seq(|vs|, i requires 0 <= i < |vs| => DATA(vs[i]))
  }

  /**
   * temporarilyRemoveLastLoad: the code of an address is the code of the
   * value without its final LOAD; an empty list or one that does not end
   * in LOAD has no such address.
   */
  function WithoutLastLoad(instrs: seq<Instr>): (r: Result<seq<Instr>>)
    ensures r.Ok? <==> |instrs| > 0 && instrs[|instrs| - 1] == LOAD
    ensures r.Ok? ==> r.value + [LOAD] == instrs
    ensures |instrs| == 0 ==> r.Fail? && r.report.Crash?
    ensures |instrs| > 0 && instrs[|instrs| - 1] != LOAD ==> r.Fail? && r.report.InternalError?
  {
    if |instrs| == 0 then Fail(Crash("getLast of an empty list"))
    else if instrs[|instrs| - 1] == LOAD then Ok(instrs[..|instrs| - 1])
    else Fail(InternalError("Expected LOAD as the last instruction"))
  }

  // ---------------------------------------------------------------------
  // Operators
  // ---------------------------------------------------------------------

  /** The operator emitted for a binary operator; none for DIV, SUB and MOD. */
  function BinOperCode(op: BinOper): seq<Instr> {
    match op
    case Or => [OPER(OR)]
    case And => [OPER(AND)]
    case Equ => [OPER(EQU)]
    case Geq => [OPER(LEQ)]
    case Leq => [OPER(GEQ)]
    case Gth => [OPER(LTH)]
    case Lth => [OPER(GTH)]
    case Add => [OPER(ADD)]
    case Mul => [OPER(MUL)]
    case Neq => [OPER(NEQ)]
    case Div => []
    case Sub => []
    case Mod => []
  }

  /** What a unary operator appends after its operand's code. */
  function UnOperCode(op: UnOper): seq<Instr> {
    match op
    case ValueAt => [LOAD]
    case UnNot => [OPER(NOT)]
    case UnSub => [OPER(NEG)]
    case MemAddr => []
    case UnAdd => []
  }

  /** Booleans are integers: nonzero is true, and true is 1. */
  function Bool(b: bool): int { if b then 1 else 0 }

  /** What a binary operator of the language means for its left and right operand. */
  function BinValue(op: BinOper, x: int, y: int): Option<int> {
    match op
    case Or => Some(Bool(x != 0 || y != 0))
    case And => Some(Bool(x != 0 && y != 0))
    case Equ => Some(Bool(x == y))
    case Neq => Some(Bool(x != y))
    case Geq => Some(Bool(x >= y))
    case Leq => Some(Bool(x <= y))
    case Gth => Some(Bool(x > y))
    case Lth => Some(Bool(x < y))
    case Add => Some(x + y)
    case Mul => Some(x * y)
    case Sub => Some(x - y)
    case Div => None
    case Mod => None
  }

  /**
   * A machine operator applied to two operands in the order they were
   * pushed: `a` below, `b` on top.
   */
  function OperValue(op: Oper, a: int, b: int): Option<int> {
    match op
    case OR => Some(Bool(a != 0 || b != 0))
    case AND => Some(Bool(a != 0 && b != 0))
    case EQU => Some(Bool(a == b))
    case NEQ => Some(Bool(a != b))
    case GEQ => Some(Bool(a >= b))
    case LEQ => Some(Bool(a <= b))
    case GTH => Some(Bool(a > b))
    case LTH => Some(Bool(a < b))
    case ADD => Some(a + b)
    case MUL => Some(a * b)
    case SUB => Some(a - b)
    case DIV => None
    case MOD => None
    case NOT => None
    case NEG => None
  }

  /**
   * The operand order compensation: the second operand is pushed first, so
   * the emitted operator sees `(y, x)`; for every operator that emits code
   * (relational ones mirrored, the others commutative) it computes what
   * the language's operator means for `(x, y)`.  DIV, SUB and MOD emit none.
   */
  lemma MirroredOperators(op: BinOper, x: int, y: int)
    ensures |BinOperCode(op)| <= 1
    ensures BinOperCode(op) == [] <==> op in {Div, Sub, Mod}
    ensures BinOperCode(op) != [] ==>
      BinOperCode(op)[0].OPER? && OperValue(BinOperCode(op)[0].oper, y, x) == BinValue(op, x, y)
  {
  }

  /** `a >= b` and `b <= a` evaluate alike; so do `a > b` and `b < a`. */
  lemma MirrorPairs(x: int, y: int)
    ensures BinOperCode(Geq) == [OPER(LEQ)] && BinOperCode(Leq) == [OPER(GEQ)]
    ensures OperValue(LEQ, y, x) == OperValue(GEQ, x, y) == BinValue(Geq, x, y) == BinValue(Leq, y, x)
    ensures OperValue(LTH, y, x) == OperValue(GTH, x, y) == BinValue(Gth, x, y) == BinValue(Lth, y, x)
  {
  }

  // ---------------------------------------------------------------------
  // Expressions
  // ---------------------------------------------------------------------

  /** The access of a parameter or a variable a name resolves to. */
  function AccessOf(d: DefRef, at: Attrs): (r: Result<Access>)
    ensures d.FunRef? ==> r == Fail(InternalError("Unreachable"))
    ensures d.VarRef? ==> (r.Ok? <==> d.varId in at.mem.varAccess)
    ensures d.ParRef? ==> (r.Ok? <==> d.parId in at.mem.parAccess)
    ensures r.Ok? ==> r.value == (if d.VarRef? then at.mem.varAccess[d.varId] else at.mem.parAccess[d.parId])
  {
    match d
    case FunRef(_) => Fail(InternalError("Unreachable"))
    case VarRef(v) => if v in at.mem.varAccess then Ok(at.mem.varAccess[v]) else Fail(Crash("switch on a null access"))
    case ParRef(p) => if p in at.mem.parAccess then Ok(at.mem.parAccess[p]) else Fail(Crash("switch on a null access"))
  }

  /**
   * The address of a parameter or variable: for an FP-relative access the
   * frame pointer, followed up the static links `frame.depth - depth` times
   * when the access belongs to an enclosing function, plus the offset; for
   * an absolute access its name.
   */
  function AddressCode(access: Access, frame: Option<Frame>): (r: Result<seq<Instr>>)
    ensures access.AbsAccess? ==> r == Ok([NAME(access.name)])
    ensures access.RelAccess? ==> (r.Ok? <==> frame.Some?)
    ensures access.RelAccess? && frame.Some? ==>
      var k := frame.value.depth - access.depth;
      var n := if k > 0 then k else 0;
      |r.value| == 3 + n && r.value[0] == REGN(FP) &&
      (forall i | 1 <= i <= n :: r.value[i] == LOAD) &&
      r.value[n + 1] == PUSH(access.offset) && r.value[n + 2] == OPER(ADD)
  {
    match access
    case RelAccess(offset, depth, _, _, _) =>
      if frame.None? then Fail(Crash("depth of a null frame"))
      else if depth < frame.value.depth then Ok([REGN(FP)] + Loads(frame.value.depth - depth) + [PUSH(offset), OPER(ADD)])
      else Ok([REGN(FP)] + [PUSH(offset), OPER(ADD)])
    case AbsAccess(name, _, _) => Ok([NAME(name)])
  }

  /** visit(VarExpr): the address of the name, then LOAD. */
  function VarCode(id: NodeId, frame: Option<Frame>, at: Attrs): (r: Result<seq<Instr>>)
    ensures id !in at.defOf ==> r.Fail?
    ensures r.Ok? ==> |r.value| >= 2 && r.value[|r.value| - 1] == LOAD
    ensures r.Ok? ==>
      id in at.defOf && AccessOf(at.defOf[id], at).Ok? &&
      AddressCode(AccessOf(at.defOf[id], at).value, frame) == WithoutLastLoad(r.value)
  {
    if id !in at.defOf then Fail(Crash("switch on a null definition"))
    else
      var access :- AccessOf(at.defOf[id], at);
      var addr :- AddressCode(access, frame);
      Ok(addr + [LOAD])
  }

  /**
   * The tail of visit(CallExpr) once the arguments are generated: the
   * static link (the frame pointer followed `caller.depth - callee.depth`
   * times), the callee's name and CALL with the caller's frame.  A callee
   * nested deeper than one level below the caller cannot be called.
   */
  function CallTail(funId: NodeId, name: string, frame: Option<Frame>, at: Attrs, argCode: seq<Instr>): (r: Result<seq<Instr>>)
    ensures r.Ok? <==> funId in at.mem.frames && frame.Some? && at.mem.frames[funId].depth - 1 <= frame.value.depth
    ensures r.Ok? ==>
      var k := frame.value.depth - at.mem.frames[funId].depth;
      r.value == argCode + [REGN(FP)] + FrameWalk(k) + [NAME(name), CALL(frame)] &&
      |r.value| == |argCode| + 3 + 3 * (if k > 0 then k else 0)
  {
    if funId !in at.mem.frames || frame.None? then Fail(Crash("depth of a null frame"))
    else
      var callee := at.mem.frames[funId];
      var caller := frame.value;
      if callee.depth - 1 <= caller.depth then
        Ok(argCode + [REGN(FP)] + FrameWalk(caller.depth - callee.depth) + [NAME(name), CALL(Some(caller))])
      else Fail(InternalError("Unreachable"))
  }

  /** The code of an expression, or the report that stops its generation. */
  function ExprCode(e: Expr, frame: Option<Frame>, at: Attrs): Result<seq<Instr>>
    decreases e, 1
  {
    match e
    case AtomExpr(a) =>
      var vs :- ConstValue(a);
      Ok(Pushes(vs))
    case VarExpr(id, _) => VarCode(id, frame, at)
    case CallExpr(id, name, args) =>
      if id !in at.defOf || !at.defOf[id].FunRef? then Fail(InternalError("Unreachable"))
      else
        var argCode :- ArgsCode(args, frame, at);
        CallTail(at.defOf[id].funId, name, frame, at, argCode)
    case UnExpr(_, oper, sub) =>
      var nested :- ExprCode(sub, frame, at);
      var operand :- if oper == MemAddr then WithoutLastLoad(nested) else Ok(nested);
      Ok(operand + UnOperCode(oper))
    case BinExpr(_, oper, fstExpr, sndExpr) =>
      var snd :- ExprCode(sndExpr, frame, at);
      var fst :- ExprCode(fstExpr, frame, at);
      Ok(snd + fst + BinOperCode(oper))
  }

  /** The arguments of a call, the last one first. */
  function ArgsCode(args: seq<Expr>, frame: Option<Frame>, at: Attrs): Result<seq<Instr>>
    decreases args, 0
  {
    if |args| == 0 then Ok([])
    else
      var last :- ExprCode(args[|args| - 1], frame, at);
      var rest :- ArgsCode(args[..|args| - 1], frame, at);
      Ok(last + rest)
  }

  /** `code` followed by the result of `r`, or `r`'s failure. */
  function Then(code: seq<Instr>, r: Result<seq<Instr>>): Result<seq<Instr>> {
    match r
    case Ok(more) => Ok(code + more)
    case Fail(rep) => Fail(rep)
  }

  lemma ThenNil(r: Result<seq<Instr>>)
    ensures Then([], r) == r
  {
    if r.Ok? {
      assert [] + r.value == r.value;
    }
  }

  lemma ThenAssoc(a: seq<Instr>, b: seq<Instr>, r: Result<seq<Instr>>)
    ensures Then(a + b, r) == Then(a, Then(b, r))
  {
    if r.Ok? {
      assert a + b + r.value == a + (b + r.value);
    }
  }

  /**
   * Right-to-left argument evaluation: when every argument has code, the
   * arguments' code is the last argument's code, then the one before, and
   * so on down to the first.
   */
  lemma ArgsRightToLeft(args: seq<Expr>, frame: Option<Frame>, at: Attrs, codes: seq<seq<Instr>>)
    requires |codes| == |args|
    requires forall i | 0 <= i < |args| :: ExprCode(args[i], frame, at) == Ok(codes[i])
    ensures ArgsCode(args, frame, at) == Ok(Reversed(codes))
  {
    ArgsPrefixCode(args, frame, at, codes, |args|);
    assert args[..|args|] == args;
    assert codes[..|codes|] == codes;
  }

  /** The first `k` arguments' code, the `k`-th argument's first. */
  lemma {:induction false} ArgsPrefixCode(args: seq<Expr>, frame: Option<Frame>, at: Attrs, codes: seq<seq<Instr>>, k: nat)
    requires |codes| == |args| && k <= |args|
    requires forall i | 0 <= i < |args| :: ExprCode(args[i], frame, at) == Ok(codes[i])
    ensures ArgsCode(args[..k], frame, at) == Ok(Reversed(codes[..k]))
    decreases k
  {
    if k == 0 {
      assert args[..0] == [];
      assert codes[..0] == [];
    } else {
      ArgsPrefixCode(args, frame, at, codes, k - 1);
      ArgsCodeStep(args, k, frame, at);
      assert ExprCode(args[k - 1], frame, at) == Ok(codes[k - 1]);
      ReversedLast(codes[..k]);
      assert codes[..k][..k - 1] == codes[..k - 1];
    }
  }

  lemma ReversedLast(codes: seq<seq<Instr>>)
    requires |codes| > 0
    ensures Reversed(codes) == codes[|codes| - 1] + Reversed(codes[..|codes| - 1])
  {
  }

  /** The concatenation of the given code lists from the last to the first. */
  function Reversed(codes: seq<seq<Instr>>): seq<Instr>
    decreases |codes|
  {
    if |codes| == 0 then [] else codes[|codes| - 1] + Reversed(codes[..|codes| - 1])
  }

  /** A call's code: the arguments last-to-first, then the static link, the callee's name and CALL. */
  lemma CallCode(id: NodeId, name: string, args: seq<Expr>, frame: Option<Frame>, at: Attrs, codes: seq<seq<Instr>>)
    requires |codes| == |args|
    requires forall i | 0 <= i < |args| :: ExprCode(args[i], frame, at) == Ok(codes[i])
    requires id in at.defOf && at.defOf[id].FunRef?
    requires at.defOf[id].funId in at.mem.frames && frame.Some?
    requires at.mem.frames[at.defOf[id].funId].depth - 1 <= frame.value.depth
    ensures var k := frame.value.depth - at.mem.frames[at.defOf[id].funId].depth;
      ExprCode(CallExpr(id, name, args), frame, at) ==
        Ok(Reversed(codes) + [REGN(FP)] + FrameWalk(k) + [NAME(name), CALL(frame)])
  {
    ArgsRightToLeft(args, frame, at, codes);
  }

  /**
   * Reading a parameter or variable of a function `k >= 0` levels out from
   * the reader follows exactly `k` static links: the code is FP, `k` LOADs,
   * the offset, ADD and the final LOAD.
   */
  lemma NonLocalRead(id: NodeId, frame: Frame, at: Attrs)
    requires id in at.defOf && AccessOf(at.defOf[id], at).Ok?
    requires AccessOf(at.defOf[id], at).value.RelAccess?
    requires AccessOf(at.defOf[id], at).value.depth <= frame.depth
    ensures var a := AccessOf(at.defOf[id], at).value;
      VarCode(id, Some(frame), at) ==
        Ok([REGN(FP)] + Loads(frame.depth - a.depth) + [PUSH(a.offset), OPER(ADD), LOAD])
  {
    var a := AccessOf(at.defOf[id], at).value;
    var addr := RelAddress(a, frame);
    VarCodeOfAddress(id, Some(frame), at, a, addr);
    assert addr + [LOAD] == [REGN(FP)] + Loads(frame.depth - a.depth) + [PUSH(a.offset), OPER(ADD), LOAD];
  }

  /** A frame-relative address `k >= 0` levels out: FP, `k` LOADs, the offset and ADD. */
  lemma RelAddress(a: Access, frame: Frame) returns (addr: seq<Instr>)
    requires a.RelAccess? && a.depth <= frame.depth
    ensures addr == [REGN(FP)] + Loads(frame.depth - a.depth) + [PUSH(a.offset), OPER(ADD)]
    ensures AddressCode(a, Some(frame)) == Ok(addr)
  {
    addr := [REGN(FP)] + Loads(frame.depth - a.depth) + [PUSH(a.offset), OPER(ADD)];
    if a.depth == frame.depth {
      assert Loads(frame.depth - a.depth) == [];
      assert addr == [REGN(FP)] + [PUSH(a.offset), OPER(ADD)];
    }
  }

  /** A name's code is its address, then LOAD. */
  lemma VarCodeOfAddress(id: NodeId, frame: Option<Frame>, at: Attrs, a: Access, addr: seq<Instr>)
    requires id in at.defOf && AccessOf(at.defOf[id], at) == Ok(a) && AddressCode(a, frame) == Ok(addr)
    ensures VarCode(id, frame, at) == Ok(addr + [LOAD])
  {
  }

  /** Assignment's destination and `^`: a name's address is its value's code without the LOAD. */
  lemma AddressOfName(id: NodeId, name: string, frame: Option<Frame>, at: Attrs)
    requires ExprCode(VarExpr(id, name), frame, at).Ok?
    ensures var c := ExprCode(VarExpr(id, name), frame, at).value;
      WithoutLastLoad(c).Ok? && WithoutLastLoad(c).value == c[..|c| - 1] &&
      ExprCode(UnExpr(id, MemAddr, VarExpr(id, name)), frame, at) == WithoutLastLoad(c)
  {
    var c := ExprCode(VarExpr(id, name), frame, at).value;
    assert WithoutLastLoad(c).value + UnOperCode(MemAddr) == WithoutLastLoad(c).value;
  }

  // ---------------------------------------------------------------------
  // Statements and definitions
  // ---------------------------------------------------------------------

  /** The generator's state: the label counter and the code and data tables. */
  datatype CG = CG(labelCounter: nat, code: map<NodeId, seq<Instr>>, data: map<NodeId, seq<Instr>>)

  /** Generated code handed to the parent, and the state after it. */
  datatype Gen = Gen(instrs: seq<Instr>, st: CG)

  /** A synthesized label: a prefix ending in `:` and the counter in decimal. */
  function Label(prefix: string, n: nat): string {
    prefix + NatToString(n)
  }

  /**
   * The five regions of an `if`: jump to the condition; the `then` branch
   * and a jump to the end; the `else` branch and a jump to the end; the
   * condition and the conditional jump; the end.
   */
  function IfCode(n: nat, cond: seq<Instr>, thenCode: seq<Instr>, elseCode: seq<Instr>): seq<Instr> {
    var thenL, elseL, condL, endL := Label("then:", n), Label("else:", n), Label("if-cond:", n), Label("end:", n);
    [NAME(condL), UJMP, LABEL(thenL)] + thenCode +
    [NAME(endL), UJMP, LABEL(elseL)] + elseCode +
    [NAME(endL), UJMP, LABEL(condL)] + cond +
    [NAME(thenL), NAME(elseL), CJMP, LABEL(endL)]
  }

  /** A `while`: the condition and the conditional jump; the body and a jump back; the end. */
  function WhileCode(n: nat, cond: seq<Instr>, body: seq<Instr>): seq<Instr> {
    var condL, doL, endL := Label("while-cond:", n), Label("do:", n), Label("end:", n);
    [LABEL(condL)] + cond + [NAME(doL), NAME(endL), CJMP, LABEL(doL)] + body +
    [NAME(condL), UJMP, LABEL(endL)]
  }

  /** A function's code: entry label, room for its locals, body, parameter cleanup and return. */
  function FunCode(f: Frame, name: string, body: seq<Instr>): seq<Instr> {
    [LABEL(name), PUSH(-(f.varsSize - 8)), POPN] + body + [PUSH(f.parsSize - 4), RETN(f)]
  }

  /**
   * A variable's initializing code and its data: the data label and the
   * encoding word by word (a global also gets its own label and its size);
   * the code copies the data block to the variable's address.
   */
  function VarDefCode(access: Access, lbl: string, enc: seq<int>): (seq<Instr>, seq<Instr>) {
    match access
    case RelAccess(offset, _, _, _, _) =>
      ([REGN(FP), PUSH(offset), OPER(ADD), NAME(lbl), INIT], [LABEL(lbl)] + Datas(enc))
    case AbsAccess(name, size, _) =>
      ([NAME(name), NAME(lbl), INIT], [LABEL(lbl)] + Datas(enc) + [LABEL(name), SIZE(size)])
  }

  function StmtGen(s: Stmt, frame: Option<Frame>, at: Attrs, st: CG): Result<Gen>
    decreases s, 0
  {
    match s
    case ExprStmt(_, e) =>
      var c :- ExprCode(e, frame, at);
      Ok(Gen(c, st))
    case AssignStmt(_, dstExpr, srcExpr) =>
      var src :- ExprCode(srcExpr, frame, at);
      var dst :- ExprCode(dstExpr, frame, at);
      var addr :- WithoutLastLoad(dst);
      Ok(Gen(src + addr + [SAVE], st))
    case IfStmt(_, cond, thenStmts, elseStmts) =>
      var n := st.labelCounter;
      var t :- StmtsGen(thenStmts, frame, at, st.(labelCounter := n + 1));
      var e :- StmtsGen(elseStmts, frame, at, t.st);
      var c :- ExprCode(cond, frame, at);
      Ok(Gen(IfCode(n, c, t.instrs, e.instrs), e.st))
    case WhileStmt(_, cond, stmts) =>
      var n := st.labelCounter;
      var c :- ExprCode(cond, frame, at);
      var b :- StmtsGen(stmts, frame, at, st.(labelCounter := n + 1));
      Ok(Gen(WhileCode(n, c, b.instrs), b.st))
    case LetStmt(_, defs, stmts) =>
      var d :- DefsGen(defs, frame, at, st);
      var b :- StmtsGen(stmts, frame, at, d.st);
      Ok(Gen(d.instrs + b.instrs, b.st))
  }

  function StmtsGen(ss: seq<Stmt>, frame: Option<Frame>, at: Attrs, st: CG): Result<Gen>
    decreases ss, 1
  {
    if |ss| == 0 then Ok(Gen([], st))
    else
      var g :- StmtsGen(ss[..|ss| - 1], frame, at, st);
      var g2 :- StmtGen(ss[|ss| - 1], frame, at, g.st);
      Ok(Gen(g.instrs + g2.instrs, g2.st))
  }

  function DefGen(d: Def, frame: Option<Frame>, at: Attrs, st: CG): Result<Gen>
    decreases d, 0
  {
    match d
    case FunDef(id, name, _, stmts) =>
      if id !in at.mem.frames then Fail(Crash("varsSize of a null frame"))
      else
        var f := at.mem.frames[id];
        if f.varsSize < 8 then Fail(InternalError("Invalid vars size"))
        else
          var b :- StmtsGen(stmts, Some(f), at, st);
          Ok(Gen([], b.st.(code := b.st.code[id := FunCode(f, name, b.instrs)])))
    case VarDef(_, _, _) => VarDefGen(d, at, st)
  }

  /** A variable definition: a fresh data label, its data block and the code that copies it. */
  function VarDefGen(d: Def, at: Attrs, st: CG): Result<Gen>
    requires d.VarDef?
  {
    var lbl := Label(":", st.labelCounter);
    var enc :- InitsEncoding(d.inits);
    if d.id !in at.mem.varAccess then Fail(Crash("switch on a null access"))
    else
      var cd := VarDefCode(at.mem.varAccess[d.id], lbl, enc);
      Ok(Gen(cd.0, CG(st.labelCounter + 1, st.code[d.id := cd.0], st.data[d.id := cd.1])))
  }

  function DefsGen(defs: seq<Def>, frame: Option<Frame>, at: Attrs, st: CG): Result<Gen>
    decreases defs, 1
  {
    if |defs| == 0 then Ok(Gen([], st))
    else
      var g :- DefsGen(defs[..|defs| - 1], frame, at, st);
      var g2 :- DefGen(defs[|defs| - 1], frame, at, g.st);
      Ok(Gen(g.instrs + g2.instrs, g2.st))
  }

  /** The code the whole program's definitions leave in the tables, starting from an empty state. */
  function Generated(at: Attrs, program: seq<Def>): Result<CG> {
    var g :- DefsGen(program, None, at, CG(0, map[], map[]));
    Ok(g.st)
  }

  // ---------------------------------------------------------------------
  // The label counter
  // ---------------------------------------------------------------------

  /** How many labels a statement draws from the counter: one per `if`, `while` and variable. */
  function LabelsOfStmt(s: Stmt): nat
    decreases s, 0
  {
    match s
    case ExprStmt(_, _) => 0
    case AssignStmt(_, _, _) => 0
    case IfStmt(_, _, thenStmts, elseStmts) => 1 + LabelsOfStmts(thenStmts) + LabelsOfStmts(elseStmts)
    case WhileStmt(_, _, stmts) => 1 + LabelsOfStmts(stmts)
    case LetStmt(_, defs, stmts) => LabelsOfDefs(defs) + LabelsOfStmts(stmts)
  }

  function LabelsOfStmts(ss: seq<Stmt>): nat
    decreases ss, 1
  {
    if |ss| == 0 then 0 else LabelsOfStmts(ss[..|ss| - 1]) + LabelsOfStmt(ss[|ss| - 1])
  }

  function LabelsOfDef(d: Def): nat
    decreases d, 0
  {
    match d
    case FunDef(_, _, _, stmts) => LabelsOfStmts(stmts)
    case VarDef(_, _, _) => 1
  }

  function LabelsOfDefs(defs: seq<Def>): nat
    decreases defs, 1
  {
    if |defs| == 0 then 0 else LabelsOfDefs(defs[..|defs| - 1]) + LabelsOfDef(defs[|defs| - 1])
  }

  /**
   * The counter advances by exactly one for every `if`, `while` and
   * variable definition generated, and by nothing else.
   */
  lemma {:induction false} CounterOfStmt(s: Stmt, frame: Option<Frame>, at: Attrs, st: CG)
    requires StmtGen(s, frame, at, st).Ok?
    ensures StmtGen(s, frame, at, st).value.st.labelCounter == st.labelCounter + LabelsOfStmt(s)
    decreases s, 0
  {
    match s
    case ExprStmt(_, _) =>
    case AssignStmt(_, _, _) =>
    case IfStmt(_, _, thenStmts, elseStmts) =>
      var t := StmtsGen(thenStmts, frame, at, st.(labelCounter := st.labelCounter + 1)).value;
      CounterOfStmts(thenStmts, frame, at, st.(labelCounter := st.labelCounter + 1));
      CounterOfStmts(elseStmts, frame, at, t.st);
    case WhileStmt(_, _, stmts) =>
      CounterOfStmts(stmts, frame, at, st.(labelCounter := st.labelCounter + 1));
    case LetStmt(_, defs, stmts) =>
      CounterOfDefs(defs, frame, at, st);
      CounterOfStmts(stmts, frame, at, DefsGen(defs, frame, at, st).value.st);
  }

  lemma {:induction false} CounterOfStmts(ss: seq<Stmt>, frame: Option<Frame>, at: Attrs, st: CG)
    requires StmtsGen(ss, frame, at, st).Ok?
    ensures StmtsGen(ss, frame, at, st).value.st.labelCounter == st.labelCounter + LabelsOfStmts(ss)
    decreases ss, 1
  {
    if |ss| > 0 {
      var g := StmtsGen(ss[..|ss| - 1], frame, at, st).value;
      CounterOfStmts(ss[..|ss| - 1], frame, at, st);
      CounterOfStmt(ss[|ss| - 1], frame, at, g.st);
    }
  }

  lemma {:induction false} CounterOfDef(d: Def, frame: Option<Frame>, at: Attrs, st: CG)
    requires DefGen(d, frame, at, st).Ok?
    ensures DefGen(d, frame, at, st).value.st.labelCounter == st.labelCounter + LabelsOfDef(d)
    decreases d, 0
  {
    match d
    case FunDef(id, _, _, stmts) =>
      CounterOfStmts(stmts, Some(at.mem.frames[id]), at, st);
    case VarDef(_, _, _) =>
  }

  lemma {:induction false} CounterOfDefs(defs: seq<Def>, frame: Option<Frame>, at: Attrs, st: CG)
    requires DefsGen(defs, frame, at, st).Ok?
    ensures DefsGen(defs, frame, at, st).value.st.labelCounter == st.labelCounter + LabelsOfDefs(defs)
    decreases defs, 1
  {
    if |defs| > 0 {
      var g := DefsGen(defs[..|defs| - 1], frame, at, st).value;
      CounterOfDefs(defs[..|defs| - 1], frame, at, st);
      CounterOfDef(defs[|defs| - 1], frame, at, g.st);
    }
  }

  // ---------------------------------------------------------------------
  // Synthesized labels are distinct
  // ---------------------------------------------------------------------

  /**
   * A label prefix ends in `:` and has no other `:`, so the counter that
   * follows it can be told apart from the prefix.
   */
  predicate LabelPrefix(p: string) {
    |p| > 0 && p[|p| - 1] == ':' && forall i | 0 <= i < |p| - 1 :: p[i] != ':'
  }

  /** The prefixes of the labels that mark code. */
  const CodePrefixes: set<string> := {"then:", "else:", "if-cond:", "end:", "while-cond:", "do:"}

  lemma PrefixesWellFormed()
    ensures forall p | p in CodePrefixes :: LabelPrefix(p)
    ensures LabelPrefix(":")
  {
    assert LabelPrefix("then:") && LabelPrefix("else:") && LabelPrefix("if-cond:");
    assert LabelPrefix("end:") && LabelPrefix("while-cond:") && LabelPrefix("do:");
  }

  /** Two synthesized labels are equal exactly when prefix and counter are. */
  lemma LabelInjective(p: string, q: string, k: nat, m: nat)
    requires LabelPrefix(p) && LabelPrefix(q)
    ensures Label(p, k) == Label(q, m) <==> p == q && k == m
  {
    if Label(p, k) == Label(q, m) {
      var s := Label(p, k);
      // The shorter prefix ends in `:` where the longer has none, unless they are equally long.
      var n := if |p| < |q| then |p| else |q|;
      assert p[n - 1] == s[n - 1] == q[n - 1];
      assert |p| == |q|;
      assert p == s[..|p|] == q;
      assert NatToString(k) == s[|p|..] == NatToString(m);
      NatToStringInjective(k, m);
    }
  }

  /** The names of the labels a list of instructions defines, in order. */
  function LabelNames(c: seq<Instr>): seq<string>
    decreases |c|
  {
    if |c| == 0 then []
    else LabelNames(c[..|c| - 1]) + (if c[|c| - 1].LABEL? then [c[|c| - 1].name] else [])
  }

  lemma {:induction false} LabelNamesAppend(a: seq<Instr>, b: seq<Instr>)
    ensures LabelNames(a + b) == LabelNames(a) + LabelNames(b)
    decreases |b|
  {
    if |b| == 0 {
      assert a + b == a;
    } else {
      var n := |b| - 1;
      assert (a + b)[..|a + b| - 1] == a + b[..n];
      LabelNamesAppend(a, b[..n]);
    }
  }

  /** No name occurs twice. */
  predicate Distinct(xs: seq<string>) {
    forall i, j | 0 <= i < j < |xs| :: xs[i] != xs[j]
  }

  /** No name of `xs` occurs in `ys`. */
  predicate Apart(xs: seq<string>, ys: seq<string>) {
    forall i, j | 0 <= i < |xs| && 0 <= j < |ys| :: xs[i] != ys[j]
  }

  /** A label drawn for code with a counter value in `[lo, hi)`. */
  predicate Drawn(name: string, lo: int, hi: int) {
    exists p, k: nat | p in CodePrefixes && lo <= k < hi :: name == Label(p, k)
  }

  predicate Within(xs: seq<string>, lo: int, hi: int) {
    forall i | 0 <= i < |xs| :: Drawn(xs[i], lo, hi)
  }

  lemma DistinctAppend(xs: seq<string>, ys: seq<string>)
    requires Distinct(xs) && Distinct(ys) && Apart(xs, ys)
    ensures Distinct(xs + ys)
  {
    forall i, j | 0 <= i < j < |xs + ys| ensures (xs + ys)[i] != (xs + ys)[j] {
      if j < |xs| {
      } else if i < |xs| {
        assert (xs + ys)[j] == ys[j - |xs|];
      } else {
        assert (xs + ys)[i] == ys[i - |xs|] && (xs + ys)[j] == ys[j - |xs|];
      }
    }
  }

  lemma ApartAppend(xs: seq<string>, ys: seq<string>, zs: seq<string>)
    requires Apart(xs, zs) && Apart(ys, zs)
    ensures Apart(xs + ys, zs)
  {
    forall i, j | 0 <= i < |xs + ys| && 0 <= j < |zs| ensures (xs + ys)[i] != zs[j] {
      if i >= |xs| {
        assert (xs + ys)[i] == ys[i - |xs|];
      }
    }
  }

  lemma WithinAppend(xs: seq<string>, ys: seq<string>, lo: int, hi: int)
    requires Within(xs, lo, hi) && Within(ys, lo, hi)
    ensures Within(xs + ys, lo, hi)
  {
    forall i | 0 <= i < |xs + ys| ensures Drawn((xs + ys)[i], lo, hi) {
      if i >= |xs| {
        assert (xs + ys)[i] == ys[i - |xs|];
      }
    }
  }

  lemma WithinWiden(xs: seq<string>, lo: int, hi: int, lo2: int, hi2: int)
    requires Within(xs, lo, hi) && lo2 <= lo && hi <= hi2
    ensures Within(xs, lo2, hi2)
  {
    forall i | 0 <= i < |xs| ensures Drawn(xs[i], lo2, hi2) {
      assert Drawn(xs[i], lo, hi);
      var p, k: nat :| p in CodePrefixes && lo <= k < hi && xs[i] == Label(p, k);
      assert lo2 <= k < hi2;
    }
  }

  /** Labels drawn from disjoint counter ranges never coincide. */
  lemma WithinApart(xs: seq<string>, lo1: int, hi1: int, ys: seq<string>, lo2: int, hi2: int)
    requires Within(xs, lo1, hi1) && Within(ys, lo2, hi2) && (hi1 <= lo2 || hi2 <= lo1)
    ensures Apart(xs, ys)
  {
    PrefixesWellFormed();
    forall i, j | 0 <= i < |xs| && 0 <= j < |ys| ensures xs[i] != ys[j] {
      assert Drawn(xs[i], lo1, hi1) && Drawn(ys[j], lo2, hi2);
      var p, k: nat :| p in CodePrefixes && lo1 <= k < hi1 && xs[i] == Label(p, k);
      var q, m: nat :| q in CodePrefixes && lo2 <= m < hi2 && ys[j] == Label(q, m);
      LabelInjective(p, q, k, m);
    }
  }

  /** One label drawn with counter `n`. */
  lemma OneLabel(p: string, n: nat)
    requires p in CodePrefixes
    ensures Within([Label(p, n)], n, n + 1) && Distinct([Label(p, n)])
  {
    assert Drawn([Label(p, n)][0], n, n + 1);
  }

  /** Labels with the same counter but different prefixes differ. */
  lemma SameCounter(xs: seq<string>, p: string, n: nat)
    requires p in CodePrefixes
    requires forall i | 0 <= i < |xs| :: exists q | q in CodePrefixes && q != p :: xs[i] == Label(q, n)
    ensures Apart(xs, [Label(p, n)])
  {
    PrefixesWellFormed();
    forall i | 0 <= i < |xs| ensures xs[i] != Label(p, n) {
      var q :| q in CodePrefixes && q != p && xs[i] == Label(q, n);
      LabelInjective(q, p, n, n);
    }
  }

  /** Expression code defines no label. */
  lemma {:induction false} ExprNoLabels(e: Expr, frame: Option<Frame>, at: Attrs)
    requires ExprCode(e, frame, at).Ok?
    ensures LabelNames(ExprCode(e, frame, at).value) == []
    decreases e, 1
  {
    match e
    case AtomExpr(a) =>
      AtomNoLabels(e, frame, at);
    case VarExpr(id, _) =>
      NoLabelInstrs(VarCode(id, frame, at).value);
    case CallExpr(_, _, _) =>
      CallNoLabels(e, frame, at);
    case UnExpr(_, _, _) =>
      UnNoLabels(e, frame, at);
    case BinExpr(_, _, _, _) =>
      BinNoLabels(e, frame, at);
  }

  lemma AtomNoLabels(e: Expr, frame: Option<Frame>, at: Attrs)
    requires e.AtomExpr? && ExprCode(e, frame, at).Ok?
    ensures LabelNames(ExprCode(e, frame, at).value) == []
  {
    NoLabelInstrs(Pushes(ConstValue(e.atom).value));
  }

  lemma {:induction false} CallNoLabels(e: Expr, frame: Option<Frame>, at: Attrs)
    requires e.CallExpr? && ExprCode(e, frame, at).Ok?
    ensures LabelNames(ExprCode(e, frame, at).value) == []
    decreases e, 0
  {
    var argCode := ArgsCode(e.args, frame, at).value;
    ArgsNoLabels(e.args, frame, at);
    var k := frame.value.depth - at.mem.frames[at.defOf[e.id].funId].depth;
    var withFp := argCode + [REGN(FP)];
    var walked := withFp + FrameWalk(k);
    assert ExprCode(e, frame, at).value == walked + [NAME(e.name), CALL(frame)];
    NoLabelInstrs([REGN(FP)]);
    LabelNamesAppend(argCode, [REGN(FP)]);
    FrameWalkNoLabels(k);
    LabelNamesAppend(withFp, FrameWalk(k));
    NoLabelInstrs([NAME(e.name), CALL(frame)]);
    LabelNamesAppend(walked, [NAME(e.name), CALL(frame)]);
  }

  lemma {:induction false} UnNoLabels(e: Expr, frame: Option<Frame>, at: Attrs)
    requires e.UnExpr? && ExprCode(e, frame, at).Ok?
    ensures LabelNames(ExprCode(e, frame, at).value) == []
    decreases e, 0
  {
    var nested := ExprCode(e.sub, frame, at).value;
    ExprNoLabels(e.sub, frame, at);
    var operand := if e.unOper == MemAddr then WithoutLastLoad(nested).value else nested;
    if e.unOper == MemAddr {
      LabelNamesAppend(operand, [LOAD]);
    }
    NoLabelInstrs(UnOperCode(e.unOper));
    LabelNamesAppend(operand, UnOperCode(e.unOper));
  }

  lemma {:induction false} BinNoLabels(e: Expr, frame: Option<Frame>, at: Attrs)
    requires e.BinExpr? && ExprCode(e, frame, at).Ok?
    ensures LabelNames(ExprCode(e, frame, at).value) == []
    decreases e, 0
  {
    var snd := ExprCode(e.sndExpr, frame, at).value;
    var fst := ExprCode(e.fstExpr, frame, at).value;
    ExprNoLabels(e.sndExpr, frame, at);
    ExprNoLabels(e.fstExpr, frame, at);
    NoLabelInstrs(BinOperCode(e.binOper));
    LabelNamesAppend(snd, fst);
    LabelNamesAppend(snd + fst, BinOperCode(e.binOper));
  }

  lemma {:induction false} ArgsNoLabels(args: seq<Expr>, frame: Option<Frame>, at: Attrs)
    requires ArgsCode(args, frame, at).Ok?
    ensures LabelNames(ArgsCode(args, frame, at).value) == []
    decreases args, 0
  {
    if |args| > 0 {
      var last := ExprCode(args[|args| - 1], frame, at).value;
      var rest := ArgsCode(args[..|args| - 1], frame, at).value;
      ExprNoLabels(args[|args| - 1], frame, at);
      ArgsNoLabels(args[..|args| - 1], frame, at);
      LabelNamesAppend(last, rest);
    }
  }

  /** A list with no LABEL instruction defines no label. */
  lemma {:induction false} NoLabelInstrs(c: seq<Instr>)
    requires forall i | 0 <= i < |c| :: !c[i].LABEL?
    ensures LabelNames(c) == []
    decreases |c|
  {
    if |c| > 0 {
      NoLabelInstrs(c[..|c| - 1]);
    }
  }

  /** The labels an `if` defines: its four own, then-branch's and else-branch's, in code order. */
  lemma IfLabels(n: nat, c: seq<Instr>, t: seq<Instr>, e: seq<Instr>)
    requires LabelNames(c) == []
    ensures LabelNames(IfCode(n, c, t, e)) ==
      [Label("then:", n)] + LabelNames(t) + [Label("else:", n)] + LabelNames(e) +
      [Label("if-cond:", n)] + [Label("end:", n)]
  {
    var thenL, elseL, condL, endL := Label("then:", n), Label("else:", n), Label("if-cond:", n), Label("end:", n);
    var p1, p2, p3, p4 := [NAME(condL), UJMP, LABEL(thenL)], [NAME(endL), UJMP, LABEL(elseL)],
      [NAME(endL), UJMP, LABEL(condL)], [NAME(thenL), NAME(elseL), CJMP, LABEL(endL)];
    assert LabelNames(p1) == [thenL] by { NoLabelInstrs(p1[..2]); assert p1[..2] == p1[..|p1| - 1]; }
    assert LabelNames(p2) == [elseL] by { NoLabelInstrs(p2[..2]); assert p2[..2] == p2[..|p2| - 1]; }
    assert LabelNames(p3) == [condL] by { NoLabelInstrs(p3[..2]); assert p3[..2] == p3[..|p3| - 1]; }
    assert LabelNames(p4) == [endL] by { NoLabelInstrs(p4[..3]); assert p4[..3] == p4[..|p4| - 1]; }
    assert IfCode(n, c, t, e) == p1 + t + p2 + e + p3 + c + p4;
    LabelNamesAppend(p1, t);
    LabelNamesAppend(p1 + t, p2);
    LabelNamesAppend(p1 + t + p2, e);
    LabelNamesAppend(p1 + t + p2 + e, p3);
    LabelNamesAppend(p1 + t + p2 + e + p3, c);
    LabelNamesAppend(p1 + t + p2 + e + p3 + c, p4);
  }

  /** The labels a `while` defines: its condition label, its `do` label, the body's, and its end label. */
  lemma WhileLabels(n: nat, c: seq<Instr>, b: seq<Instr>)
    requires LabelNames(c) == []
    ensures LabelNames(WhileCode(n, c, b)) ==
      [Label("while-cond:", n)] + [Label("do:", n)] + LabelNames(b) + [Label("end:", n)]
  {
    var condL, doL, endL := Label("while-cond:", n), Label("do:", n), Label("end:", n);
    var p1, p2, p3 := [LABEL(condL)], [NAME(doL), NAME(endL), CJMP, LABEL(doL)], [NAME(condL), UJMP, LABEL(endL)];
    assert LabelNames(p1) == [condL] by { assert p1[..0] == []; }
    assert LabelNames(p2) == [doL] by { NoLabelInstrs(p2[..3]); assert p2[..3] == p2[..|p2| - 1]; }
    assert LabelNames(p3) == [endL] by { NoLabelInstrs(p3[..2]); assert p3[..2] == p3[..|p3| - 1]; }
    assert WhileCode(n, c, b) == p1 + c + p2 + b + p3;
    LabelNamesAppend(p1, c);
    LabelNamesAppend(p1 + c, p2);
    LabelNamesAppend(p1 + c + p2, b);
    LabelNamesAppend(p1 + c + p2 + b, p3);
  }

  /** The four labels of one `if` differ from each other, and so do the three of one `while`. */
  lemma OwnLabelsDiffer(n: nat)
    ensures Label("then:", n) != Label("else:", n) && Label("then:", n) != Label("if-cond:", n)
    ensures Label("then:", n) != Label("end:", n) && Label("else:", n) != Label("if-cond:", n)
    ensures Label("else:", n) != Label("end:", n) && Label("if-cond:", n) != Label("end:", n)
    ensures Label("while-cond:", n) != Label("do:", n) && Label("while-cond:", n) != Label("end:", n)
    ensures Label("do:", n) != Label("end:", n)
  {
    PrefixesWellFormed();
    LabelInjective("then:", "else:", n, n);
    LabelInjective("then:", "if-cond:", n, n);
    LabelInjective("then:", "end:", n, n);
    LabelInjective("else:", "if-cond:", n, n);
    LabelInjective("else:", "end:", n, n);
    LabelInjective("if-cond:", "end:", n, n);
    LabelInjective("while-cond:", "do:", n, n);
    LabelInjective("while-cond:", "end:", n, n);
    LabelInjective("do:", "end:", n, n);
  }

  /**
   * An `if` numbered `n` whose branches drew their labels from `[n + 1, c1)`
   * and `[c1, c2)` defines no label twice.
   */
  lemma IfNamesDistinct(n: nat, lt: seq<string>, le: seq<string>, c1: int, c2: int)
    requires n + 1 <= c1 <= c2
    requires Distinct(lt) && Within(lt, n + 1, c1) && Distinct(le) && Within(le, c1, c2)
    ensures var xs := [Label("then:", n)] + lt + [Label("else:", n)] + le + [Label("if-cond:", n)] + [Label("end:", n)];
      Distinct(xs) && Within(xs, n, c2)
  {
    var t, e, c, d := [Label("then:", n)], [Label("else:", n)], [Label("if-cond:", n)], [Label("end:", n)];
    OwnLabelsDiffer(n);
    OneLabel("then:", n);
    OneLabel("else:", n);
    OneLabel("if-cond:", n);
    OneLabel("end:", n);
    // then-label and then-branch
    WithinApart(t, n, n + 1, lt, n + 1, c1);
    DistinctAppend(t, lt);
    // else-label
    WithinApart(lt, n + 1, c1, e, n, n + 1);
    ApartAppend(t, lt, e);
    DistinctAppend(t + lt, e);
    // else-branch
    WithinApart(t, n, n + 1, le, c1, c2);
    WithinApart(lt, n + 1, c1, le, c1, c2);
    WithinApart(e, n, n + 1, le, c1, c2);
    ApartAppend(t, lt, le);
    ApartAppend(t + lt, e, le);
    DistinctAppend(t + lt + e, le);
    // condition label
    WithinApart(lt, n + 1, c1, c, n, n + 1);
    WithinApart(le, c1, c2, c, n, n + 1);
    ApartAppend(t, lt, c);
    ApartAppend(t + lt, e, c);
    ApartAppend(t + lt + e, le, c);
    DistinctAppend(t + lt + e + le, c);
    // end label
    WithinApart(lt, n + 1, c1, d, n, n + 1);
    WithinApart(le, c1, c2, d, n, n + 1);
    ApartAppend(t, lt, d);
    ApartAppend(t + lt, e, d);
    ApartAppend(t + lt + e, le, d);
    ApartAppend(t + lt + e + le, c, d);
    DistinctAppend(t + lt + e + le + c, d);
    // all drawn from [n, c2)
    WithinWiden(t, n, n + 1, n, c2);
    WithinWiden(lt, n + 1, c1, n, c2);
    WithinWiden(e, n, n + 1, n, c2);
    WithinWiden(le, c1, c2, n, c2);
    WithinWiden(c, n, n + 1, n, c2);
    WithinWiden(d, n, n + 1, n, c2);
    WithinAppend(t, lt, n, c2);
    WithinAppend(t + lt, e, n, c2);
    WithinAppend(t + lt + e, le, n, c2);
    WithinAppend(t + lt + e + le, c, n, c2);
    WithinAppend(t + lt + e + le + c, d, n, c2);
  }

  /** A `while` numbered `n` whose body drew its labels from `[n + 1, c1)` defines no label twice. */
  lemma WhileNamesDistinct(n: nat, lb: seq<string>, c1: int)
    requires n + 1 <= c1
    requires Distinct(lb) && Within(lb, n + 1, c1)
    ensures var xs := [Label("while-cond:", n)] + [Label("do:", n)] + lb + [Label("end:", n)];
      Distinct(xs) && Within(xs, n, c1)
  {
    var w, d, e := [Label("while-cond:", n)], [Label("do:", n)], [Label("end:", n)];
    OwnLabelsDiffer(n);
    OneLabel("while-cond:", n);
    OneLabel("do:", n);
    OneLabel("end:", n);
    DistinctAppend(w, d);
    WithinApart(w, n, n + 1, lb, n + 1, c1);
    WithinApart(d, n, n + 1, lb, n + 1, c1);
    ApartAppend(w, d, lb);
    DistinctAppend(w + d, lb);
    WithinApart(lb, n + 1, c1, e, n, n + 1);
    ApartAppend(w, d, e);
    ApartAppend(w + d, lb, e);
    DistinctAppend(w + d + lb, e);
    WithinWiden(w, n, n + 1, n, c1);
    WithinWiden(d, n, n + 1, n, c1);
    WithinWiden(lb, n + 1, c1, n, c1);
    WithinWiden(e, n, n + 1, n, c1);
    WithinAppend(w, d, n, c1);
    WithinAppend(w + d, lb, n, c1);
    WithinAppend(w + d + lb, e, n, c1);
  }

  /**
   * The code a statement hands to its parent defines every label at most
   * once, each drawn from the counter values the statement consumed; so
   * the labels of a whole function body are pairwise distinct.
   */
  /** The labels of generated code are distinct and numbered from `lo` up to the new counter. */
  predicate LabelsFrom(g: Gen, lo: int) {
    lo <= g.st.labelCounter && Distinct(LabelNames(g.instrs)) && Within(LabelNames(g.instrs), lo, g.st.labelCounter)
  }

  lemma {:induction false} StmtLabelsDistinct(s: Stmt, frame: Option<Frame>, at: Attrs, st: CG)
    requires StmtGen(s, frame, at, st).Ok?
    ensures LabelsFrom(StmtGen(s, frame, at, st).value, st.labelCounter)
    decreases s, 1
  {
    match s
    case ExprStmt(_, e) =>
      ExprNoLabels(e, frame, at);
    case AssignStmt(_, _, _) =>
      AssignLabels(s, frame, at, st);
    case IfStmt(_, _, _, _) =>
      IfStmtLabels(s, frame, at, st);
    case WhileStmt(_, _, _) =>
      WhileStmtLabels(s, frame, at, st);
    case LetStmt(_, _, _) =>
      LetStmtLabels(s, frame, at, st);
  }

  lemma AssignLabels(s: Stmt, frame: Option<Frame>, at: Attrs, st: CG)
    requires s.AssignStmt? && StmtGen(s, frame, at, st).Ok?
    ensures LabelsFrom(StmtGen(s, frame, at, st).value, st.labelCounter)
  {
    var src := ExprCode(s.srcExpr, frame, at).value;
    var addr := WithoutLastLoad(ExprCode(s.dstExpr, frame, at).value).value;
    ExprNoLabels(s.srcExpr, frame, at);
    ExprNoLabels(s.dstExpr, frame, at);
    LabelNamesAppend(addr, [LOAD]);
    LabelNamesAppend(src, addr);
    LabelNamesAppend(src + addr, [SAVE]);
  }

  lemma {:induction false} IfStmtLabels(s: Stmt, frame: Option<Frame>, at: Attrs, st: CG)
    requires s.IfStmt? && StmtGen(s, frame, at, st).Ok?
    ensures LabelsFrom(StmtGen(s, frame, at, st).value, st.labelCounter)
    decreases s, 0
  {
    var n := st.labelCounter;
    var c, t, e := IfStmtParts(s, frame, at, st);
    BranchLabels(s.thenStmts, frame, at, st.(labelCounter := n + 1), t);
    BranchLabels(s.elseStmts, frame, at, t.st, e);
    ExprNoLabels(s.cond, frame, at);
    IfGenLabels(n, c, t, e);
  }

  /** StmtsLabelsDistinct for statements whose generated code is already at hand. */
  lemma {:induction false} BranchLabels(ss: seq<Stmt>, frame: Option<Frame>, at: Attrs, st: CG, g: Gen)
    requires StmtsGen(ss, frame, at, st) == Ok(g)
    ensures LabelsFrom(g, st.labelCounter)
    decreases ss, 3
  {
    StmtsLabelsDistinct(ss, frame, at, st);
  }

  /** An `if` statement's code is made of its condition's code and its branches' code. */
  lemma IfStmtParts(s: Stmt, frame: Option<Frame>, at: Attrs, st: CG) returns (c: seq<Instr>, t: Gen, e: Gen)
    requires s.IfStmt? && StmtGen(s, frame, at, st).Ok?
    ensures ExprCode(s.cond, frame, at) == Ok(c)
    ensures StmtsGen(s.thenStmts, frame, at, st.(labelCounter := st.labelCounter + 1)) == Ok(t)
    ensures StmtsGen(s.elseStmts, frame, at, t.st) == Ok(e)
    ensures StmtGen(s, frame, at, st) == Ok(Gen(IfCode(st.labelCounter, c, t.instrs, e.instrs), e.st))
  {
    c := ExprCode(s.cond, frame, at).value;
    t := StmtsGen(s.thenStmts, frame, at, st.(labelCounter := st.labelCounter + 1)).value;
    e := StmtsGen(s.elseStmts, frame, at, t.st).value;
  }

  lemma IfGenLabels(n: nat, c: seq<Instr>, t: Gen, e: Gen)
    requires LabelNames(c) == [] && LabelsFrom(t, n + 1) && LabelsFrom(e, t.st.labelCounter)
    ensures LabelsFrom(Gen(IfCode(n, c, t.instrs, e.instrs), e.st), n)
  {
    IfLabels(n, c, t.instrs, e.instrs);
    IfNamesDistinct(n, LabelNames(t.instrs), LabelNames(e.instrs), t.st.labelCounter, e.st.labelCounter);
  }

  lemma {:induction false} WhileStmtLabels(s: Stmt, frame: Option<Frame>, at: Attrs, st: CG)
    requires s.WhileStmt? && StmtGen(s, frame, at, st).Ok?
    ensures LabelsFrom(StmtGen(s, frame, at, st).value, st.labelCounter)
    decreases s, 0
  {
    var n := st.labelCounter;
    var c, b := WhileStmtParts(s, frame, at, st);
    BranchLabels(s.stmts, frame, at, st.(labelCounter := n + 1), b);
    ExprNoLabels(s.cond, frame, at);
    WhileGenLabels(n, c, b);
  }

  /** A `while` statement's code is made of its condition's code and its body's code. */
  lemma WhileStmtParts(s: Stmt, frame: Option<Frame>, at: Attrs, st: CG) returns (c: seq<Instr>, b: Gen)
    requires s.WhileStmt? && StmtGen(s, frame, at, st).Ok?
    ensures ExprCode(s.cond, frame, at) == Ok(c)
    ensures StmtsGen(s.stmts, frame, at, st.(labelCounter := st.labelCounter + 1)) == Ok(b)
    ensures StmtGen(s, frame, at, st) == Ok(Gen(WhileCode(st.labelCounter, c, b.instrs), b.st))
  {
    c := ExprCode(s.cond, frame, at).value;
    b := StmtsGen(s.stmts, frame, at, st.(labelCounter := st.labelCounter + 1)).value;
  }

  lemma WhileGenLabels(n: nat, c: seq<Instr>, b: Gen)
    requires LabelNames(c) == [] && LabelsFrom(b, n + 1)
    ensures LabelsFrom(Gen(WhileCode(n, c, b.instrs), b.st), n)
  {
    WhileLabels(n, c, b.instrs);
    WhileNamesDistinct(n, LabelNames(b.instrs), b.st.labelCounter);
  }

  lemma {:induction false} LetStmtLabels(s: Stmt, frame: Option<Frame>, at: Attrs, st: CG)
    requires s.LetStmt? && StmtGen(s, frame, at, st).Ok?
    ensures LabelsFrom(StmtGen(s, frame, at, st).value, st.labelCounter)
    decreases s, 0
  {
    var g := StmtGen(s, frame, at, st).value;
    var d := DefsGen(s.defs, frame, at, st).value;
    DefsNoLabels(s.defs, frame, at, st);
    StmtsLabelsDistinct(s.stmts, frame, at, d.st);
    LabelNamesAppend(d.instrs, StmtsGen(s.stmts, frame, at, d.st).value.instrs);
    WithinWiden(LabelNames(g.instrs), d.st.labelCounter, g.st.labelCounter, st.labelCounter, g.st.labelCounter);
  }

  lemma {:induction false} StmtsLabelsDistinct(ss: seq<Stmt>, frame: Option<Frame>, at: Attrs, st: CG)
    requires StmtsGen(ss, frame, at, st).Ok?
    ensures LabelsFrom(StmtsGen(ss, frame, at, st).value, st.labelCounter)
    decreases ss, 2
  {
    if |ss| > 0 {
      var g := StmtsGen(ss[..|ss| - 1], frame, at, st).value;
      var g2 := StmtGen(ss[|ss| - 1], frame, at, g.st).value;
      StmtsLabelsDistinct(ss[..|ss| - 1], frame, at, st);
      StmtLabelsDistinct(ss[|ss| - 1], frame, at, g.st);
      var x, y := LabelNames(g.instrs), LabelNames(g2.instrs);
      LabelNamesAppend(g.instrs, g2.instrs);
      WithinApart(x, st.labelCounter, g.st.labelCounter, y, g.st.labelCounter, g2.st.labelCounter);
      DistinctAppend(x, y);
      WithinWiden(x, st.labelCounter, g.st.labelCounter, st.labelCounter, g2.st.labelCounter);
      WithinWiden(y, g.st.labelCounter, g2.st.labelCounter, st.labelCounter, g2.st.labelCounter);
      WithinAppend(x, y, st.labelCounter, g2.st.labelCounter);
    }
  }

  /**
   * Definitions hand no labels to their parent: a function's code goes to
   * the code table, a variable's code only copies its data block.
   */
  lemma {:induction false} DefsNoLabels(defs: seq<Def>, frame: Option<Frame>, at: Attrs, st: CG)
    requires DefsGen(defs, frame, at, st).Ok?
    ensures var g := DefsGen(defs, frame, at, st).value;
      st.labelCounter <= g.st.labelCounter && LabelNames(g.instrs) == []
    decreases defs, 1
  {
    if |defs| > 0 {
      var g := DefsGen(defs[..|defs| - 1], frame, at, st).value;
      var g2 := DefGen(defs[|defs| - 1], frame, at, g.st).value;
      DefsNoLabels(defs[..|defs| - 1], frame, at, st);
      DefCounterGrows(defs[|defs| - 1], frame, at, g.st);
      NoLabelInstrs(g2.instrs);
      LabelNamesAppend(g.instrs, g2.instrs);
    }
  }

  lemma DefCounterGrows(d: Def, frame: Option<Frame>, at: Attrs, st: CG)
    requires DefGen(d, frame, at, st).Ok?
    ensures var g := DefGen(d, frame, at, st).value;
      st.labelCounter <= g.st.labelCounter && forall i | 0 <= i < |g.instrs| :: !g.instrs[i].LABEL?
  {
    CounterOfDef(d, frame, at, st);
  }

  /**
   * A function's code in the table: its entry label, the prologue sized
   * by its frame, its body, and the epilogue; when the function's name has
   * no `:` (identifiers never do), no label is defined twice in it.
   */
  lemma FunDefCode(d: Def, frame: Option<Frame>, at: Attrs, st: CG)
    requires d.FunDef? && DefGen(d, frame, at, st).Ok?
    ensures var g := DefGen(d, frame, at, st).value;
      var f := at.mem.frames[d.id];
      g.instrs == [] && d.id in g.st.code && f.varsSize >= 8 &&
      g.st.code[d.id][..3] == [LABEL(d.name), PUSH(-(f.varsSize - 8)), POPN] &&
      g.st.code[d.id][|g.st.code[d.id]| - 2..] == [PUSH(f.parsSize - 4), RETN(f)] &&
      ((forall i | 0 <= i < |d.name| :: d.name[i] != ':') ==> Distinct(LabelNames(g.st.code[d.id])))
  {
    var f := at.mem.frames[d.id];
    var b := StmtsGen(d.stmts, Some(f), at, st).value;
    FunCodeShape(f, d.name, b.instrs);
    if forall i | 0 <= i < |d.name| :: d.name[i] != ':' {
      StmtsLabelsDistinct(d.stmts, Some(f), at, st);
      FunCodeDistinct(f, d.name, b.instrs, st.labelCounter, b.st.labelCounter);
    }
  }

  /** A function's code begins with the prologue and ends with the epilogue. */
  lemma FunCodeShape(f: Frame, name: string, body: seq<Instr>)
    ensures var code := FunCode(f, name, body);
      code[..3] == [LABEL(name), PUSH(-(f.varsSize - 8)), POPN] &&
      code[|code| - 2..] == [PUSH(f.parsSize - 4), RETN(f)]
  {
    var code := FunCode(f, name, body);
    var head, tail := [LABEL(name), PUSH(-(f.varsSize - 8)), POPN], [PUSH(f.parsSize - 4), RETN(f)];
    assert code == head + body + tail;
    assert code[..3] == head;
    assert code[|code| - 2..] == tail;
  }

  /** The prologue defines one label, the function's name. */
  lemma PrologueLabels(f: Frame, name: string)
    ensures LabelNames([LABEL(name), PUSH(-(f.varsSize - 8)), POPN]) == [name]
  {
    var head := [LABEL(name), PUSH(-(f.varsSize - 8)), POPN];
    NoLabelInstrs(head[1..]);
    LabelNamesAppend([head[0]], head[1..]);
    assert [head[0]] + head[1..] == head;
    assert [head[0]][..0] == [];
  }

  /** The labels a function's code defines: its name, then the body's. */
  lemma FunCodeLabels(f: Frame, name: string, body: seq<Instr>)
    ensures LabelNames(FunCode(f, name, body)) == [name] + LabelNames(body)
  {
    var code := FunCode(f, name, body);
    var head, tail := [LABEL(name), PUSH(-(f.varsSize - 8)), POPN], [PUSH(f.parsSize - 4), RETN(f)];
    assert code == head + body + tail;
    PrologueLabels(f, name);
    NoLabelInstrs(tail);
    LabelNamesAppend(head, body);
    LabelNamesAppend(head + body, tail);
  }

  /** A name without `:` is none of the labels drawn from the counter. */
  lemma NotDrawn(name: string, lb: seq<string>, lo: int, hi: int)
    requires forall i | 0 <= i < |name| :: name[i] != ':'
    requires Within(lb, lo, hi)
    ensures forall j | 0 <= j < |lb| :: lb[j] != name
  {
    forall j | 0 <= j < |lb| ensures lb[j] != name {
      assert Drawn(lb[j], lo, hi);
      var p, k: nat :| p in CodePrefixes && lo <= k < hi && lb[j] == Label(p, k);
      PrefixesWellFormed();
      assert lb[j][|p| - 1] == ':';
    }
  }

  /** The function's own label and the body's drawn labels never clash. */
  lemma FunCodeDistinct(f: Frame, name: string, body: seq<Instr>, lo: int, hi: int)
    requires forall i | 0 <= i < |name| :: name[i] != ':'
    requires Distinct(LabelNames(body)) && Within(LabelNames(body), lo, hi)
    ensures Distinct(LabelNames(FunCode(f, name, body)))
  {
    FunCodeLabels(f, name, body);
    NotDrawn(name, LabelNames(body), lo, hi);
    DistinctAppend([name], LabelNames(body));
  }

  /**
   * A variable's data: the label `:n` drawn from the counter, the encoded
   * initializers word by word, and for a global its own name and size; its
   * code copies that block to the variable's address.
   */
  lemma VarDefData(d: Def, at: Attrs, st: CG)
    requires d.VarDef? && VarDefGen(d, at, st).Ok?
    ensures var g := VarDefGen(d, at, st).value;
      var enc := InitsEncoding(d.inits).value;
      var lbl := ":" + NatToString(st.labelCounter);
      var access := at.mem.varAccess[d.id];
      InitsEncoding(d.inits).Ok? && d.id in at.mem.varAccess &&
      g.st == CG(st.labelCounter + 1, st.code[d.id := g.instrs], st.data[d.id := g.st.data[d.id]]) &&
      g.st.data[d.id][0] == LABEL(lbl) &&
      (forall i | 0 <= i < |enc| :: g.st.data[d.id][1 + i] == DATA(enc[i])) &&
      (access.RelAccess? ==>
        |g.st.data[d.id]| == 1 + |enc| && g.instrs == [REGN(FP), PUSH(access.offset), OPER(ADD), NAME(lbl), INIT]) &&
      (access.AbsAccess? ==>
        g.st.data[d.id][1 + |enc|..] == [LABEL(access.name), SIZE(access.size)] &&
        g.instrs == [NAME(access.name), NAME(lbl), INIT])
  {
    var enc := InitsEncoding(d.inits).value;
    var lbl := ":" + NatToString(st.labelCounter);
    var access := at.mem.varAccess[d.id];
    var cd := VarDefCode(access, lbl, enc);
    VarDefCodeShape(access, lbl, enc);
    assert VarDefGen(d, at, st) == Ok(Gen(cd.0, CG(st.labelCounter + 1, st.code[d.id := cd.0], st.data[d.id := cd.1])));
  }

  /** The code and the data block of a variable, by its kind of access. */
  lemma VarDefCodeShape(access: Access, lbl: string, enc: seq<int>)
    ensures var (code, data) := VarDefCode(access, lbl, enc);
      data[0] == LABEL(lbl) &&
      (forall i | 0 <= i < |enc| :: data[1 + i] == DATA(enc[i])) &&
      (access.RelAccess? ==>
        |data| == 1 + |enc| && code == [REGN(FP), PUSH(access.offset), OPER(ADD), NAME(lbl), INIT]) &&
      (access.AbsAccess? ==>
        data[1 + |enc|..] == [LABEL(access.name), SIZE(access.size)] &&
        code == [NAME(access.name), NAME(lbl), INIT])
  {
    match access
    case RelAccess(_, _, _, _, _) =>
      BlockData(lbl, enc, []);
      assert [LABEL(lbl)] + Datas(enc) + [] == [LABEL(lbl)] + Datas(enc);
    case AbsAccess(name, size, _) =>
      BlockData(lbl, enc, [LABEL(name), SIZE(size)]);
  }

  /** A data block: its label, the encoded words, then whatever follows them. */
  lemma BlockData(lbl: string, enc: seq<int>, tail: seq<Instr>)
    ensures var data := [LABEL(lbl)] + Datas(enc) + tail;
      |data| == 1 + |enc| + |tail| && data[0] == LABEL(lbl) &&
      (forall i | 0 <= i < |enc| :: data[1 + i] == DATA(enc[i])) &&
      data[1 + |enc|..] == tail
  {
    var data := [LABEL(lbl)] + Datas(enc) + tail;
    forall i | 0 <= i < |enc| ensures data[1 + i] == DATA(enc[i]) {
      assert data[1 + i] == Datas(enc)[i];
    }
    assert data[1 + |enc|..] == tail;
  }

  /**
   * The prologue and epilogue agree with the memory layout: for a frame
   * laid out by the memory phase, the prologue reserves exactly the bytes
   * of the function's own variables and the epilogue releases exactly its
   * parameters (the static link is released by the caller's CALL).
   */
  lemma PrologueMatchesLayout(def: Def, d: nat, b: int, body: seq<Instr>)
    requires def.FunDef? && DefWalk(def, d, b).Ok?
    ensures DefsWalk(OwnVarsOfStmts(def.stmts), d + 1, 0).Ok?
    ensures var w := DefWalk(def, d, b).value;
      |w.puts| > 0 && w.puts[|w.puts| - 1].PutFrame?
    ensures var w := DefWalk(def, d, b).value;
      var f := w.puts[|w.puts| - 1].frame;
      var locals := DefsWalk(OwnVarsOfStmts(def.stmts), d + 1, 0).value;
      var code := FunCode(f, def.name, body);
      code[1] == PUSH(-SumSizes(locals.puts)) &&
      code[|code| - 2] == PUSH(NumberSize * |def.pars|)
  {
    FunDefFrame(def, d, b);
  }

  // ---------------------------------------------------------------------
  // The generator
  // ---------------------------------------------------------------------

  /** Unfolds `StmtsGen` on one more statement. */
  lemma StmtsGenStep(ss: seq<Stmt>, i: nat, frame: Option<Frame>, at: Attrs, st: CG, g: Gen)
    requires i < |ss| && StmtsGen(ss[..i], frame, at, st) == Ok(g)
    ensures StmtsGen(ss[..i + 1], frame, at, st) ==
      match StmtGen(ss[i], frame, at, g.st)
      case Ok(g2) => Ok(Gen(g.instrs + g2.instrs, g2.st))
      case Fail(rep) => Fail(rep)
  {
    assert ss[..i + 1][..i] == ss[..i];
  }

  lemma DefsGenStep(defs: seq<Def>, i: nat, frame: Option<Frame>, at: Attrs, st: CG, g: Gen)
    requires i < |defs| && DefsGen(defs[..i], frame, at, st) == Ok(g)
    ensures DefsGen(defs[..i + 1], frame, at, st) ==
      match DefGen(defs[i], frame, at, st := g.st)
      case Ok(g2) => Ok(Gen(g.instrs + g2.instrs, g2.st))
      case Fail(rep) => Fail(rep)
  {
    assert defs[..i + 1][..i] == defs[..i];
  }

  /** A failure on a prefix of the statements is the failure of all of them. */
  lemma {:induction false} StmtsPrefixFailure(ss: seq<Stmt>, n: nat, frame: Option<Frame>, at: Attrs, st: CG)
    requires n <= |ss| && StmtsGen(ss[..n], frame, at, st).Fail?
    ensures StmtsGen(ss, frame, at, st) == Fail(StmtsGen(ss[..n], frame, at, st).report)
    decreases |ss| - n
  {
    if n < |ss| {
      assert ss[..n + 1][..n] == ss[..n];
      StmtsPrefixFailure(ss, n + 1, frame, at, st);
    } else {
      assert ss[..n] == ss;
    }
  }

  lemma {:induction false} DefsPrefixFailure(defs: seq<Def>, n: nat, frame: Option<Frame>, at: Attrs, st: CG)
    requires n <= |defs| && DefsGen(defs[..n], frame, at, st).Fail?
    ensures DefsGen(defs, frame, at, st) == Fail(DefsGen(defs[..n], frame, at, st).report)
    decreases |defs| - n
  {
    if n < |defs| {
      assert defs[..n + 1][..n] == defs[..n];
      DefsPrefixFailure(defs, n + 1, frame, at, st);
    } else {
      assert defs[..n] == defs;
    }
  }

  /** Unfolds `ArgsCode` on the argument before the first `i`. */
  lemma ArgsCodeStep(args: seq<Expr>, i: nat, frame: Option<Frame>, at: Attrs)
    requires 0 < i <= |args|
    ensures ArgsCode(args[..i], frame, at) ==
      match ExprCode(args[i - 1], frame, at)
      case Fail(rep) => Fail(rep)
      case Ok(c) => Then(c, ArgsCode(args[..i - 1], frame, at))
  {
    assert args[..i][i - 1] == args[i - 1];
    assert args[..i][..i - 1] == args[..i - 1];
  }

  /**
   * CodeGenerator: the label counter and the code and data tables, filled
   * by one walk over the program with the frames and accesses fixed.
   */
  class Generator {
    const at: Attrs
    var labelCounter: nat
    var attrCode: map<NodeId, seq<Instr>>
    var attrData: map<NodeId, seq<Instr>>

    constructor (at: Attrs)
      ensures this.at == at && labelCounter == 0 && attrCode == map[] && attrData == map[]
    {
      this.at := at;
      labelCounter := 0;
      attrCode := map[];
      attrData := map[];
    }

    function State(): CG
      reads this
    {
      CG(labelCounter, attrCode, attrData)
    }

    /**
     * The result and the new state are those of the generation `g`; on a
     * failure its report is raised and the tables no longer matter.
     */
    predicate Produced(r: Result<seq<Instr>>, g: Result<Gen>)
      reads this
    {
      match g
      case Ok(gen) => r == Ok(gen.instrs) && State() == gen.st
      case Fail(rep) => r == Fail(rep)
    }

    /** generate(): the top-level definitions, outside every function. */
    method Generate(program: seq<Def>) returns (r: Result<CG>)
      requires State() == CG(0, map[], map[])
      modifies this
      ensures r == Generated(at, program)
    {
      var o := VisitDefs(program, None);
      if o.Fail? {
        return Fail(o.report);
      }
      r := Ok(State());
    }

    // --- expressions: they leave the counter and the tables as they are

    method VisitExpr(e: Expr, frame: Option<Frame>) returns (r: Result<seq<Instr>>)
      ensures r == ExprCode(e, frame, at)
      decreases e, 1
    {
      match e {
        case AtomExpr(a) => r := VisitAtomExpr(a);
        case VarExpr(id, _) => r := VisitVarExpr(id, frame);
        case CallExpr(_, _, _) => r := VisitCallExpr(e, frame);
        case UnExpr(_, _, _) => r := VisitUnExpr(e, frame);
        case BinExpr(_, _, _, _) => r := VisitBinExpr(e, frame);
      }
    }

    /** visit(AtomExpr): one PUSH per decoded value. */
    method VisitAtomExpr(a: Atom) returns (r: Result<seq<Instr>>)
      ensures r == ExprCode(AtomExpr(a), None, at)
      ensures r.Ok? ==> |r.value| == |ConstValue(a).value| && forall i | 0 <= i < |r.value| :: r.value[i] == PUSH(ConstValue(a).value[i])
    {
      var values := DecodeConst(a);
      if values.Fail? {
        return Fail(values.report);
      }
      var instrs: seq<Instr> := [];
      for i := 0 to |values.value|
        invariant |instrs| == i
        invariant forall k | 0 <= k < i :: instrs[k] == PUSH(values.value[k])
      {
        instrs := instrs + [PUSH(values.value[i])];
      }
      assert instrs == Pushes(values.value);
      r := Ok(instrs);
    }

    /** visit(VarExpr). */
    method VisitVarExpr(id: NodeId, frame: Option<Frame>) returns (r: Result<seq<Instr>>)
      ensures r == VarCode(id, frame, at)
    {
      if id !in at.defOf {
        return Fail(Crash("switch on a null definition"));
      }
      var access: Access;
      match at.defOf[id] {
        case FunRef(_) =>
          return Fail(InternalError("Unreachable"));
        case VarRef(v) =>
          if v !in at.mem.varAccess {
            return Fail(Crash("switch on a null access"));
          }
          access := at.mem.varAccess[v];
        case ParRef(p) =>
          if p !in at.mem.parAccess {
            return Fail(Crash("switch on a null access"));
          }
          access := at.mem.parAccess[p];
      }
      var instrs: seq<Instr>;
      match access {
        case RelAccess(offset, depth, _, _, _) =>
          if frame.None? {
            return Fail(Crash("depth of a null frame"));
          }
          if depth < frame.value.depth {
            var depthDiff := frame.value.depth - depth;
            instrs := [REGN(FP)];
            for i := 0 to depthDiff
              invariant instrs == [REGN(FP)] + Loads(i)
            {
              instrs := instrs + [LOAD];
            }
          } else {
            instrs := [REGN(FP)];
          }
          instrs := instrs + [PUSH(offset), OPER(ADD)];
        case AbsAccess(name, _, _) =>
          instrs := [NAME(name)];
      }
      assert AddressCode(access, frame) == Ok(instrs);
      r := Ok(instrs + [LOAD]);
    }

    /** visit(CallExpr): the arguments from the last to the first, the static link, the call. */
    method VisitCallExpr(e: Expr, frame: Option<Frame>) returns (r: Result<seq<Instr>>)
      requires e.CallExpr?
      ensures r == ExprCode(e, frame, at)
      decreases e, 0
    {
      if e.id !in at.defOf || !at.defOf[e.id].FunRef? {
        return Fail(InternalError("Unreachable"));
      }
      var funId := at.defOf[e.id].funId;
      var argCode := VisitArgs(e.args, frame);
      if argCode.Fail? {
        return Fail(argCode.report);
      }
      var instrs := argCode.value;
      if funId !in at.mem.frames || frame.None? {
        return Fail(Crash("depth of a null frame"));
      }
      var callee := at.mem.frames[funId];
      var caller := frame.value;
      if callee.depth - 1 <= caller.depth {
        var depthDiff := caller.depth - callee.depth;
        var link := StaticLinkCode(depthDiff);
        instrs := instrs + [REGN(FP)] + link;
      } else {
        return Fail(InternalError("Unreachable"));
      }
      r := Ok(instrs + [NAME(e.name), CALL(frame)]);
    }

    /** The argument loop of visit(CallExpr): from the last argument to the first. */
    method VisitArgs(args: seq<Expr>, frame: Option<Frame>) returns (r: Result<seq<Instr>>)
      ensures r == ArgsCode(args, frame, at)
      decreases args, 0
    {
      var instrs: seq<Instr> := [];
      var i := |args|;
      assert args[..i] == args;
      ThenNil(ArgsCode(args, frame, at));
      while i > 0
        invariant 0 <= i <= |args|
        invariant Then(instrs, ArgsCode(args[..i], frame, at)) == ArgsCode(args, frame, at)
      {
        var c := VisitExpr(args[i - 1], frame);
        ArgsCodeStep(args, i, frame, at);
        if c.Fail? {
          return Fail(c.report);
        }
        ThenAssoc(instrs, c.value, ArgsCode(args[..i - 1], frame, at));
        instrs := instrs + c.value;
        i := i - 1;
      }
      assert args[..0] == [];
      assert instrs + [] == instrs;
      r := Ok(instrs);
    }

    /** The static-link loop of visit(CallExpr): `n` times `PUSH -4, ADD, LOAD`. */
    static method StaticLinkCode(n: int) returns (instrs: seq<Instr>)
      ensures instrs == FrameWalk(n)
    {
      instrs := [];
      var k := 0;
      while k < n
        invariant 0 <= k && (k <= n || k == 0)
        invariant instrs == FrameWalk(k)
      {
        instrs := instrs + [PUSH(-4), OPER(ADD), LOAD];
        k := k + 1;
      }
      assert FrameWalk(k) == FrameWalk(n);
    }

    /** visit(UnExpr): the operand (its address for `^`), then the operator. */
    method VisitUnExpr(e: Expr, frame: Option<Frame>) returns (r: Result<seq<Instr>>)
      requires e.UnExpr?
      ensures r == ExprCode(e, frame, at)
      decreases e, 0
    {
      var nested := VisitExpr(e.sub, frame);
      if nested.Fail? {
        return Fail(nested.report);
      }
      var instrs := nested.value;
      if e.unOper == MemAddr {
        var address := TemporarilyRemoveLastLoad(instrs);
        if address.Fail? {
          return Fail(address.report);
        }
        instrs := address.value;
      }
      ghost var operand := instrs;
      match e.unOper {
        case ValueAt => instrs := instrs + [LOAD];
        case UnNot => instrs := instrs + [OPER(NOT)];
        case UnSub => instrs := instrs + [OPER(NEG)];
        case MemAddr =>
        case UnAdd =>
      }
      assert instrs == operand + UnOperCode(e.unOper);
      r := Ok(instrs);
    }

    /** visit(BinExpr): the second operand, the first, then the (mirrored) operator. */
    method VisitBinExpr(e: Expr, frame: Option<Frame>) returns (r: Result<seq<Instr>>)
      requires e.BinExpr?
      ensures r == ExprCode(e, frame, at)
      decreases e, 0
    {
      var snd := VisitExpr(e.sndExpr, frame);
      if snd.Fail? {
        return Fail(snd.report);
      }
      var fst := VisitExpr(e.fstExpr, frame);
      if fst.Fail? {
        return Fail(fst.report);
      }
      var instrs := snd.value + fst.value;
      match e.binOper {
        case Or => instrs := instrs + [OPER(OR)];
        case And => instrs := instrs + [OPER(AND)];
        case Equ => instrs := instrs + [OPER(EQU)];
        case Geq => instrs := instrs + [OPER(LEQ)];
        case Leq => instrs := instrs + [OPER(GEQ)];
        case Gth => instrs := instrs + [OPER(LTH)];
        case Lth => instrs := instrs + [OPER(GTH)];
        case Add => instrs := instrs + [OPER(ADD)];
        case Mul => instrs := instrs + [OPER(MUL)];
        case Neq => instrs := instrs + [OPER(NEQ)];
        case Div =>
        case Sub =>
        case Mod =>
      }
      assert instrs == snd.value + fst.value + BinOperCode(e.binOper);
      r := Ok(instrs);
    }

    /** temporarilyRemoveLastLoad: drops the trailing LOAD of an address's value code. */
    method TemporarilyRemoveLastLoad(instrs: seq<Instr>) returns (r: Result<seq<Instr>>)
      ensures r == WithoutLastLoad(instrs)
    {
      if |instrs| == 0 {
        return Fail(Crash("getLast of an empty list"));
      }
      if instrs[|instrs| - 1] == LOAD {
        r := Ok(instrs[..|instrs| - 1]);
      } else {
        r := Fail(InternalError("Expected LOAD as the last instruction"));
      }
    }

    // --- statements and definitions

    method VisitStmt(s: Stmt, frame: Option<Frame>) returns (r: Result<seq<Instr>>)
      modifies this
      ensures Produced(r, StmtGen(s, frame, at, old(State())))
      decreases s, 1
    {
      match s {
        case ExprStmt(_, e) =>
          r := VisitExpr(e, frame);
        case AssignStmt(_, dstExpr, srcExpr) =>
          var src := VisitExpr(srcExpr, frame);
          if src.Fail? {
            return Fail(src.report);
          }
          var dst := VisitExpr(dstExpr, frame);
          if dst.Fail? {
            return Fail(dst.report);
          }
          var address := TemporarilyRemoveLastLoad(dst.value);
          if address.Fail? {
            return Fail(address.report);
          }
          r := Ok(src.value + address.value + [SAVE]);
        case IfStmt(_, _, _, _) =>
          r := VisitIfStmt(s, frame);
        case WhileStmt(_, _, _) =>
          r := VisitWhileStmt(s, frame);
        case LetStmt(_, defs, stmts) =>
          ghost var st0 := State();
          var d := VisitDefs(defs, frame);
          if d.Fail? {
            return Fail(d.report);
          }
          var b := VisitStmts(stmts, frame);
          if b.Fail? {
            return Fail(b.report);
          }
          r := Ok(d.value + b.value);
      }
    }

    /** visit(IfStmt): draws one counter value for its four labels. */
    method VisitIfStmt(s: Stmt, frame: Option<Frame>) returns (r: Result<seq<Instr>>)
      requires s.IfStmt?
      modifies this
      ensures Produced(r, StmtGen(s, frame, at, old(State())))
      decreases s, 0
    {
      var n := labelCounter;
      var thenLabel := "then:" + NatToString(n);
      var elseLabel := "else:" + NatToString(n);
      var condLabel := "if-cond:" + NatToString(n);
      var endLabel := "end:" + NatToString(n);
      labelCounter := labelCounter + 1;
      var t := VisitStmts(s.thenStmts, frame);
      if t.Fail? {
        return Fail(t.report);
      }
      var e := VisitStmts(s.elseStmts, frame);
      if e.Fail? {
        return Fail(e.report);
      }
      var c := VisitExpr(s.cond, frame);
      if c.Fail? {
        return Fail(c.report);
      }
      var instrs :=
        [NAME(condLabel), UJMP, LABEL(thenLabel)] + t.value +
        [NAME(endLabel), UJMP, LABEL(elseLabel)] + e.value +
        [NAME(endLabel), UJMP, LABEL(condLabel)] + c.value +
        [NAME(thenLabel), NAME(elseLabel), CJMP, LABEL(endLabel)];
      assert instrs == IfCode(n, c.value, t.value, e.value);
      r := Ok(instrs);
    }

    /** visit(WhileStmt): draws one counter value for its three labels. */
    method VisitWhileStmt(s: Stmt, frame: Option<Frame>) returns (r: Result<seq<Instr>>)
      requires s.WhileStmt?
      modifies this
      ensures Produced(r, StmtGen(s, frame, at, old(State())))
      decreases s, 0
    {
      var n := labelCounter;
      var condLabel := "while-cond:" + NatToString(n);
      var doLabel := "do:" + NatToString(n);
      var endLabel := "end:" + NatToString(n);
      labelCounter := labelCounter + 1;
      var c := VisitExpr(s.cond, frame);
      if c.Fail? {
        return Fail(c.report);
      }
      var b := VisitStmts(s.stmts, frame);
      if b.Fail? {
        return Fail(b.report);
      }
      var instrs :=
        [LABEL(condLabel)] + c.value + [NAME(doLabel), NAME(endLabel), CJMP, LABEL(doLabel)] + b.value +
        [NAME(condLabel), UJMP, LABEL(endLabel)];
      assert instrs == WhileCode(n, c.value, b.value);
      r := Ok(instrs);
    }

    /** visit(Nodes) over statements: each in order, their code concatenated. */
    method VisitStmts(ss: seq<Stmt>, frame: Option<Frame>) returns (r: Result<seq<Instr>>)
      modifies this
      ensures Produced(r, StmtsGen(ss, frame, at, old(State())))
      decreases ss, 2
    {
      ghost var st0 := State();
      var instrs: seq<Instr> := [];
      var i := 0;
      while i < |ss|
        invariant 0 <= i <= |ss|
        invariant StmtsGen(ss[..i], frame, at, st0) == Ok(Gen(instrs, State()))
      {
        StmtsGenStep(ss, i, frame, at, st0, Gen(instrs, State()));
        var c := VisitStmt(ss[i], frame);
        if c.Fail? {
          StmtsPrefixFailure(ss, i + 1, frame, at, st0);
          return Fail(c.report);
        }
        instrs := instrs + c.value;
        i := i + 1;
      }
      assert ss[..i] == ss;
      r := Ok(instrs);
    }

    /** visit(Nodes) over definitions. */
    method VisitDefs(defs: seq<Def>, frame: Option<Frame>) returns (r: Result<seq<Instr>>)
      modifies this
      ensures Produced(r, DefsGen(defs, frame, at, old(State())))
      decreases defs, 2
    {
      ghost var st0 := State();
      var instrs: seq<Instr> := [];
      var i := 0;
      while i < |defs|
        invariant 0 <= i <= |defs|
        invariant DefsGen(defs[..i], frame, at, st0) == Ok(Gen(instrs, State()))
      {
        DefsGenStep(defs, i, frame, at, st0, Gen(instrs, State()));
        var c := VisitDef(defs[i], frame);
        if c.Fail? {
          DefsPrefixFailure(defs, i + 1, frame, at, st0);
          return Fail(c.report);
        }
        instrs := instrs + c.value;
        i := i + 1;
      }
      assert defs[..i] == defs;
      r := Ok(instrs);
    }

    method VisitDef(d: Def, frame: Option<Frame>) returns (r: Result<seq<Instr>>)
      modifies this
      ensures Produced(r, DefGen(d, frame, at, old(State())))
      decreases d, 1
    {
      match d {
        case FunDef(_, _, _, _) => r := VisitFunDef(d, frame);
        case VarDef(_, _, _) => r := VisitVarDef(d, frame);
      }
    }

    /**
     * visit(FunDef): the function's code goes to the code table, framed by
     * the prologue and epilogue; nothing is handed to the parent.
     */
    method VisitFunDef(d: Def, parentFrame: Option<Frame>) returns (r: Result<seq<Instr>>)
      requires d.FunDef?
      modifies this
      ensures Produced(r, DefGen(d, parentFrame, at, old(State())))
      decreases d, 0
    {
      if d.id !in at.mem.frames {
        return Fail(Crash("varsSize of a null frame"));
      }
      var frame := at.mem.frames[d.id];
      var instrs := [LABEL(d.name)];
      var omittedPointerSizes := 8;
      if frame.varsSize < omittedPointerSizes {
        return Fail(InternalError("Invalid vars size"));
      }
      instrs := instrs + [PUSH(-(frame.varsSize - omittedPointerSizes)), POPN];
      var body := VisitStmts(d.stmts, Some(frame));
      if body.Fail? {
        return Fail(body.report);
      }
      instrs := instrs + body.value;
      instrs := instrs + [PUSH(frame.parsSize - 4), RETN(frame)];
      assert instrs == FunCode(frame, d.name, body.value);
      attrCode := attrCode[d.id := instrs];
      r := Ok([]);
    }

    /** The loop of visit(VarDef) over the encoded initializers: the data label, then one DATA per word. */
    static method DataBlock(dataLabel: string, enc: seq<int>) returns (dataInstrs: seq<Instr>)
      ensures dataInstrs == [LABEL(dataLabel)] + Datas(enc)
    {
      dataInstrs := [LABEL(dataLabel)];
      for i := 0 to |enc|
        invariant dataInstrs == [LABEL(dataLabel)] + Datas(enc[..i])
      {
        assert enc[..i + 1] == enc[..i] + [enc[i]];
        dataInstrs := dataInstrs + [DATA(enc[i])];
      }
      assert enc[..|enc|] == enc;
    }

    /**
     * visit(VarDef): draws the data label, records the data block and the
     * code that copies it to the variable.
     */
    method VisitVarDef(d: Def, frame: Option<Frame>) returns (r: Result<seq<Instr>>)
      requires d.VarDef?
      modifies this
      ensures Produced(r, VarDefGen(d, at, old(State())))
    {
      var dataLabelName := ":" + NatToString(labelCounter);
      labelCounter := labelCounter + 1;
      var decodedInits := DecodeInits(d.inits);
      if decodedInits.Fail? {
        return Fail(decodedInits.report);
      }
      var enc := decodedInits.value;
      var dataInstrs := DataBlock(dataLabelName, enc);
      if d.id !in at.mem.varAccess {
        return Fail(Crash("switch on a null access"));
      }
      var instrs: seq<Instr>;
      match at.mem.varAccess[d.id] {
        case RelAccess(offset, _, _, _, _) =>
          instrs := [REGN(FP), PUSH(offset), OPER(ADD), NAME(dataLabelName), INIT];
        case AbsAccess(name, size, _) =>
          dataInstrs := dataInstrs + [LABEL(name), SIZE(size)];
          instrs := [NAME(name), NAME(dataLabelName), INIT];
      }
      attrData := attrData[d.id := dataInstrs];
      attrCode := attrCode[d.id := instrs];
      r := Ok(instrs);
    }
  }
}
