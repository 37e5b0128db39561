/**
 * The memory organizer of PINS'24: the call frame of every function, the
 * access of every parameter and variable, and the flat encoding of variable
 * initializers from which sizes and initial data are computed.
 *
 * A frame on the target machine looks like this (addresses grow upwards):
 *
 *     FP + 4 + 4*i   parameter i
 *     FP + 0         static link
 *     FP - 4         saved FP
 *     FP - 8         return address
 *     below FP - 8   local variables, in declaration order, downwards
 */
module Memory {
  import opened Ast
  import opened Numbers

  /** Addresses and integers are 32-bit. */
  const AddressSize: int := 4
  const NumberSize: int := 4
  /** Locals start below the saved FP and the return address. */
  const VarStartOffset: int := -8

  /** The call frame of a function: its name, nesting depth and the byte
      sizes of its parameter block and its locals block. */
  datatype Frame = Frame(name: string, depth: int, parsSize: int, varsSize: int)

  /** An access to a parameter or a variable: FP-relative at some depth, or
      absolute (a named global).  `inits` is the flat initializer encoding
      (absent for parameters). */
  datatype Access =
    | RelAccess(offset: int, depth: int, size: int, inits: Option<seq<int>>, name: string)
    | AbsAccess(name: string, size: int, inits: Option<seq<int>>)

  // ---------------------------------------------------------------------
  // Constants and the initializer encoding
  // ---------------------------------------------------------------------

  /** One decoded initializer: `num` repetitions of the value group `vals`. */
  datatype InitGroup = InitGroup(num: int, vals: seq<int>)

  /** The character codes of a string, in order. */
  function Codes(s: string): (r: seq<int>)
    ensures |r| == |s|
    ensures forall i | 0 <= i < |s| :: r[i] == s[i] as int
    decreases |s|
  {
    if |s| == 0 then [] else Codes(s[..|s| - 1]) + [s[|s| - 1] as int]
  }

  /** The value group of a literal atom (decodeConst). */
  function ConstValue(a: Atom): Result<seq<int>> {
    match a.kind
    case ChrConst =>
      if |a.value| == 0 then Fail(Crash("charAt(0) of an empty character constant"))
      else Ok([a.value[0] as int])
    case StrConst => Ok(Codes(a.value))
    case IntConst =>
      match Decode(a.value)
      case Some(n) => Ok([n])
      case None => Fail(Error(a.id, "Illegal integer value."))
  }

  /** One initializer decoded: the first value of its count, then its value group. */
  function GroupOf(init: Init): Result<InitGroup> {
    var nums :- ConstValue(init.num);
    if |nums| == 0 then Fail(Crash("getFirst of an empty value group"))
    else
      var vals :- ConstValue(init.value);
      Ok(InitGroup(nums[0], vals))
  }

  /** All initializers decoded in order; the first failing one decides the report. */
  function DecodedGroups(inits: seq<Init>): Result<seq<InitGroup>>
    decreases |inits|
  {
    if |inits| == 0 then Ok([])
    else
      var gs :- DecodedGroups(inits[..|inits| - 1]);
      var g :- GroupOf(inits[|inits| - 1]);
      Ok(gs + [g])
  }

  /** The flat form of one group: `[num, len, v1 .. vlen]`. */
  function Chunk(g: InitGroup): seq<int> {
    [g.num, |g.vals|] + g.vals
  }

  /** The flat form of a sequence of groups. */
  function EncodeGroups(gs: seq<InitGroup>): seq<int>
    decreases |gs|
  {
    if |gs| == 0 then [] else Chunk(gs[0]) + EncodeGroups(gs[1..])
  }

  /** The full encoding: the number of groups, then every group flattened. */
  function Encode(gs: seq<InitGroup>): seq<int> {
    [|gs|] + EncodeGroups(gs)
  }

  /** The encoding stored in an access, or the report that stopped it. */
  function InitsEncoding(inits: seq<Init>): Result<seq<int>> {
    var gs :- DecodedGroups(inits);
    Ok(Encode(gs))
  }

  /** `e` is a sequence of whole groups `[num, len, v1 .. vlen]`. */
  predicate Tiles(e: seq<int>)
    decreases |e|
  {
    |e| == 0 || (|e| >= 2 && 0 <= e[1] && 2 + e[1] <= |e| && Tiles(e[2 + e[1]..]))
  }

  /** Reads the groups back from their flat form. */
  function GroupsOf(e: seq<int>): seq<InitGroup>
    requires Tiles(e)
    decreases |e|
  {
    if |e| == 0 then [] else [InitGroup(e[0], e[2..2 + e[1]])] + GroupsOf(e[2 + e[1]..])
  }

  /** Bytes taken by the groups: every value is one 4-byte number. */
  function SizeOf(gs: seq<InitGroup>): int
    decreases |gs|
  {
    if |gs| == 0 then 0 else gs[0].num * |gs[0].vals| * NumberSize + SizeOf(gs[1..])
  }

  lemma {:induction false} EncodeGroupsSnoc(gs: seq<InitGroup>, g: InitGroup)
    ensures EncodeGroups(gs + [g]) == EncodeGroups(gs) + Chunk(g)
    decreases |gs|
  {
    if |gs| == 0 {
      assert EncodeGroups([g]) == Chunk(g) + EncodeGroups([]);
    } else {
      assert (gs + [g])[1..] == gs[1..] + [g];
      EncodeGroupsSnoc(gs[1..], g);
    }
  }

  /**
   * The flat form can be read back: it tiles into whole groups, those are
   * the original groups, and nothing else is there.
   */
  lemma {:induction false} EncodeGroupsRoundTrip(gs: seq<InitGroup>)
    ensures Tiles(EncodeGroups(gs)) && GroupsOf(EncodeGroups(gs)) == gs
    decreases |gs|
  {
    if |gs| > 0 {
      var e := EncodeGroups(gs);
      var rest := EncodeGroups(gs[1..]);
      EncodeGroupsRoundTrip(gs[1..]);
      assert e == [gs[0].num, |gs[0].vals|] + gs[0].vals + rest;
      assert e[2 + |gs[0].vals|..] == rest;
      assert e[2..2 + |gs[0].vals|] == gs[0].vals;
      ConsSplit(gs);
    }
  }

  lemma ConsSplit<T>(s: seq<T>)
    requires |s| > 0
    ensures [s[0]] + s[1..] == s
  {
  }

  lemma ChunkSplit(e: seq<int>, k: nat)
    requires 2 <= k <= |e|
    ensures e[..2] + e[2..k] + e[k..] == e
  {
  }

  /** Conversely, any tiling sequence is the flat form of the groups read from it. */
  lemma {:induction false} GroupsOfRoundTrip(e: seq<int>)
    requires Tiles(e)
    ensures EncodeGroups(GroupsOf(e)) == e
    decreases |e|
  {
    if |e| > 0 {
      var g := InitGroup(e[0], e[2..2 + e[1]]);
      var t := e[2 + e[1]..];
      GroupsOfRoundTrip(t);
      assert GroupsOf(e) == [g] + GroupsOf(t);
      assert ([g] + GroupsOf(t))[1..] == GroupsOf(t);
      assert Chunk(g) == e[..2] + e[2..2 + e[1]];
      ChunkSplit(e, 2 + e[1]);
    }
  }

  /** The header of the full encoding counts the groups. */
  lemma EncodeHeader(gs: seq<InitGroup>)
    ensures |Encode(gs)| >= 1 && Encode(gs)[0] == |gs|
    ensures Tiles(Encode(gs)[1..]) && GroupsOf(Encode(gs)[1..]) == gs
  {
    EncodeGroupsRoundTrip(gs);
    assert Encode(gs)[1..] == EncodeGroups(gs);
  }

  /** With non-negative repetition counts no variable has a negative size. */
  lemma {:induction false} SizeOfNonNegative(gs: seq<InitGroup>)
    requires forall i | 0 <= i < |gs| :: gs[i].num >= 0
    ensures SizeOf(gs) >= 0
    decreases |gs|
  {
    if |gs| > 0 {
      SizeOfNonNegative(gs[1..]);
    }
  }

  lemma {:induction false} SizeOfSnoc(gs: seq<InitGroup>, g: InitGroup)
    ensures SizeOf(gs + [g]) == SizeOf(gs) + g.num * |g.vals| * NumberSize
    decreases |gs|
  {
    if |gs| > 0 {
      assert (gs + [g])[1..] == gs[1..] + [g];
      SizeOfSnoc(gs[1..], g);
    }
  }

  /**
   * Literal counts as the lexer produces them (decimal digits, a character
   * or a string) never decode to a negative count.
   */
  lemma {:induction false} DecodedCountsNonNegative(inits: seq<Init>, gs: seq<InitGroup>)
    requires forall i | 0 <= i < |inits| ::
      inits[i].num.kind == IntConst ==> forall k | 0 <= k < |inits[i].num.value| :: IsDecimalDigit(inits[i].num.value[k])
    requires DecodedGroups(inits) == Ok(gs)
    ensures forall i | 0 <= i < |gs| :: gs[i].num >= 0
    ensures SizeOf(gs) >= 0
    decreases |inits|
  {
    if |inits| > 0 {
      var prefix := inits[..|inits| - 1];
      var last := inits[|inits| - 1];
      var pgs := DecodedGroups(prefix).value;
      DecodedCountsNonNegative(prefix, pgs);
      assert gs == pgs + [GroupOf(last).value];
      if last.num.kind == IntConst {
        DigitsDecodeNonNegative(last.num.value);
      }
    }
    SizeOfNonNegative(gs);
  }

  // ---------------------------------------------------------------------
  // decodeConst, decodeInits and getVariableSizeInBytes
  // ---------------------------------------------------------------------

  /**
   * decodeConst: a character gives the code of its first character, a
   * string one code per character in order, an integer its Integer.decode
   * value; an integer Java cannot decode is reported at the atom.
   */
  method DecodeConst(a: Atom) returns (r: Result<seq<int>>)
    ensures a.kind == ChrConst ==>
      r == if |a.value| == 0 then Fail(Crash("charAt(0) of an empty character constant")) else Ok([a.value[0] as int])
    ensures a.kind == StrConst ==>
      r.Ok? && |r.value| == |a.value| && forall i | 0 <= i < |a.value| :: r.value[i] == a.value[i] as int
    ensures a.kind == IntConst ==>
      r == match Decode(a.value) case Some(n) => Ok([n]) case None => Fail(Error(a.id, "Illegal integer value."))
    ensures r == ConstValue(a)
  {
    match a.kind {
      case ChrConst =>
        if |a.value| == 0 {
          return Fail(Crash("charAt(0) of an empty character constant"));
        }
        r := Ok([a.value[0] as int]);
      case StrConst =>
        var value: seq<int> := [];
        var c := 0;
        while c < |a.value|
          invariant 0 <= c <= |a.value|
          invariant |value| == c
          invariant forall k | 0 <= k < c :: value[k] == a.value[k] as int
        {
          value := value + [a.value[c] as int];
          c := c + 1;
        }
        assert value == Codes(a.value);
        r := Ok(value);
      case IntConst =>
        match Decode(a.value) {
          case Some(n) => r := Ok([n]);
          case None => r := Fail(Error(a.id, "Illegal integer value."));
        }
    }
  }

  /**
   * decodeInits: `[number of initializers]` followed, for every initializer,
   * by `[num, |vals|] + vals`; the first initializer that does not decode
   * stops it.
   */
  method DecodeInits(inits: seq<Init>) returns (r: Result<seq<int>>)
    ensures r.Ok? <==> DecodedGroups(inits).Ok?
    ensures r.Ok? ==> r.value == Encode(DecodedGroups(inits).value)
    ensures r.Fail? ==> r.report == DecodedGroups(inits).report
  {
    var enc: seq<int> := [|inits|];
    ghost var gs: seq<InitGroup> := [];
    var i := 0;
    while i < |inits|
      invariant 0 <= i <= |inits|
      invariant DecodedGroups(inits[..i]) == Ok(gs)
      invariant enc == [|inits|] + EncodeGroups(gs)
      invariant |gs| == i
    {
      DecodedGroupsStep(inits, i, gs);
      var nums := DecodeConst(inits[i].num);
      if nums.Fail? {
        PrefixFailure(inits, i + 1);
        return Fail(nums.report);
      }
      if |nums.value| == 0 {
        PrefixFailure(inits, i + 1);
        return Fail(Crash("getFirst of an empty value group"));
      }
      var num := nums.value[0];
      var vals := DecodeConst(inits[i].value);
      if vals.Fail? {
        PrefixFailure(inits, i + 1);
        return Fail(vals.report);
      }
      EncodeAppendGroup([|inits|], gs, InitGroup(num, vals.value));
      enc := enc + [num, |vals.value|] + vals.value;
      gs := gs + [InitGroup(num, vals.value)];
      i := i + 1;
    }
    assert inits[..i] == inits;
    r := Ok(enc);
  }

  /** Appending a group's header and values extends the flat form by that group. */
  lemma EncodeAppendGroup(head: seq<int>, gs: seq<InitGroup>, g: InitGroup)
    ensures (head + EncodeGroups(gs)) + [g.num, |g.vals|] + g.vals == head + EncodeGroups(gs + [g])
  {
    EncodeGroupsSnoc(gs, g);
  }

  /** One more initializer: its group is appended, or its failure is the result. */
  lemma DecodedGroupsStep(inits: seq<Init>, i: nat, gs: seq<InitGroup>)
    requires i < |inits| && DecodedGroups(inits[..i]) == Ok(gs)
    ensures GroupOf(inits[i]).Ok? ==> DecodedGroups(inits[..i + 1]) == Ok(gs + [GroupOf(inits[i]).value])
    ensures GroupOf(inits[i]).Fail? ==> DecodedGroups(inits[..i + 1]) == Fail(GroupOf(inits[i]).report)
  {
    assert inits[..i + 1][..i] == inits[..i];
  }

  /** A failure on a prefix of the initializers is the failure of the whole list. */
  lemma {:induction false} PrefixFailure(inits: seq<Init>, n: nat)
    requires n <= |inits| && DecodedGroups(inits[..n]).Fail?
    ensures DecodedGroups(inits) == DecodedGroups(inits[..n])
    decreases |inits| - n
  {
    if n < |inits| {
      assert inits[..n + 1][..n] == inits[..n];
      PrefixFailure(inits, n + 1);
    } else {
      assert inits[..n] == inits;
    }
  }

  /**
   * getVariableSizeInBytes: stepping over the groups by `2 + len`, the sum
   * of `num * len * 4`.
   */
  method GetVariableSizeInBytes(inits: seq<int>) returns (size: int)
    requires |inits| >= 1 && Tiles(inits[1..])
    ensures size == SizeOf(GroupsOf(inits[1..]))
  {
    size := 0;
    var i := 1;
    while i < |inits|
      invariant 1 <= i <= |inits|
      invariant Tiles(inits[i..])
      invariant size + SizeOf(GroupsOf(inits[i..])) == SizeOf(GroupsOf(inits[1..]))
      decreases |inits| - i
    {
      var repetitionsOfNextValue := inits[i];
      var sizeOfValueGroup := inits[i + 1];
      assert inits[i..][2 + sizeOfValueGroup..] == inits[i + 2 + sizeOfValueGroup..];
      size := size + repetitionsOfNextValue * sizeOfValueGroup * NumberSize;
      i := i + 2 + sizeOfValueGroup;
    }
  }

  /** The size stored in a variable's access: Σ num·len·4 over its initializers. */
  lemma EncodedSize(gs: seq<InitGroup>)
    ensures |Encode(gs)| >= 1 && Tiles(Encode(gs)[1..])
    ensures SizeOf(GroupsOf(Encode(gs)[1..])) == SizeOf(gs)
  {
    EncodeHeader(gs);
  }

  // ---------------------------------------------------------------------
  // The layout walk: what the visitor puts into the attribute tables
  // ---------------------------------------------------------------------

  /** The accumulators of one function being laid out (FrameComputedFields). */
  datatype FrameFields = FrameFields(parsSize: int, varsSize: int)

  /** One `put` into an attribute table. */
  datatype Put =
    | PutFrame(funId: NodeId, frame: Frame)
    | PutPar(parId: NodeId, parAccess: Access)
    | PutVar(varId: NodeId, varAccess: Access)

  /** The three attribute tables of the memory phase. */
  datatype MemAttrs = MemAttrs(frames: map<NodeId, Frame>, parAccess: map<NodeId, Access>, varAccess: map<NodeId, Access>)

  function ApplyPut(m: MemAttrs, p: Put): MemAttrs {
    match p
    case PutFrame(id, f) => m.(frames := m.frames[id := f])
    case PutPar(id, a) => m.(parAccess := m.parAccess[id := a])
    case PutVar(id, a) => m.(varAccess := m.varAccess[id := a])
  }

  /** The tables after a sequence of puts, later puts overriding earlier ones. */
  function ApplyPuts(m: MemAttrs, ps: seq<Put>): MemAttrs
    decreases |ps|
  {
    if |ps| == 0 then m else ApplyPut(ApplyPuts(m, ps[..|ps| - 1]), ps[|ps| - 1])
  }

  lemma {:induction false} ApplyPutsAppend(m: MemAttrs, a: seq<Put>, b: seq<Put>)
    ensures ApplyPuts(m, a + b) == ApplyPuts(ApplyPuts(m, a), b)
    decreases |b|
  {
    if |b| == 0 {
      assert a + b == a;
    } else {
      assert (a + b)[..|a + b| - 1] == a + b[..|b| - 1];
      ApplyPutsAppend(m, a, b[..|b| - 1]);
    }
  }

  lemma ApplyPutsSnoc(m: MemAttrs, ps: seq<Put>, p: Put)
    ensures ApplyPuts(m, ps + [p]) == ApplyPut(ApplyPuts(m, ps), p)
  {
    assert (ps + [p])[..|ps|] == ps;
  }

  lemma ApplyPutsSingle(m: MemAttrs, p: Put)
    ensures ApplyPuts(m, [p]) == ApplyPut(m, p)
  {
    assert [p][..0] == [];
  }

  /** The puts of a walk and the locals size it leaves in the current frame. */
  datatype Walk = Walk(puts: seq<Put>, varsSize: int)

  /** The puts of a parameter list and the parameter block size it leaves. */
  datatype ParWalk = ParWalk(puts: seq<Put>, parsSize: int)

  /** visit(ParDef), parameter by parameter: offset `parsSize + 4`, size 4. */
  function ParsWalk(pars: seq<ParDef>, d: nat, p: int): ParWalk
    decreases |pars|
  {
    if |pars| == 0 then ParWalk([], p)
    else
      var w := ParsWalk(pars[..|pars| - 1], d, p);
      var last := pars[|pars| - 1];
      ParWalk(w.puts + [PutPar(last.id, RelAccess(w.parsSize + AddressSize, d, NumberSize, None, last.name))],
              w.parsSize + NumberSize)
  }

  lemma SplitLast<T>(s: seq<T>)
    requires |s| > 0
    ensures s == s[..|s| - 1] + [s[|s| - 1]]
  {
  }

  /** One more parameter walked: the next walk and the tables after its put. */
  lemma ParsLoopStep(m0: MemAttrs, pars: seq<ParDef>, i: nat, d: nat, p0: int, pw: ParWalk, m: MemAttrs) returns (next: ParWalk)
    requires i < |pars| && ParsWalk(pars[..i], d, p0) == pw && m == ApplyPuts(m0, pw.puts)
    ensures ParsWalk(pars[..i + 1], d, p0) == next && next.parsSize == pw.parsSize + NumberSize
    ensures ApplyPut(m, PutPar(pars[i].id, RelAccess(pw.parsSize + AddressSize, d, NumberSize, None, pars[i].name))) == ApplyPuts(m0, next.puts)
  {
    var p := PutPar(pars[i].id, RelAccess(pw.parsSize + AddressSize, d, NumberSize, None, pars[i].name));
    ParsWalkStep(pars, i, d, p0);
    ApplyPutsSnoc(m0, pw.puts, p);
    next := ParWalk(pw.puts + [p], pw.parsSize + NumberSize);
  }

  lemma ParsWalkStep(pars: seq<ParDef>, i: nat, d: nat, p: int)
    requires i < |pars|
    ensures var w := ParsWalk(pars[..i], d, p);
      ParsWalk(pars[..i + 1], d, p) ==
      ParWalk(w.puts + [PutPar(pars[i].id, RelAccess(w.parsSize + AddressSize, d, NumberSize, None, pars[i].name))],
              w.parsSize + NumberSize)
  {
    assert pars[..i + 1][..i] == pars[..i];
  }

  /**
   * visit(VarDef) at stack depth `d` with `b` bytes of locals so far: a
   * global (depth 0) gets an absolute access and leaves the accumulators
   * alone; a local is placed just below the locals laid out so far.
   */
  function VarDefWalk(id: NodeId, name: string, inits: seq<Init>, d: nat, b: int): Result<Walk> {
    match DecodedGroups(inits)
    case Fail(rep) => Fail(rep)
    case Ok(gs) => Ok(VarWalk(id, name, Encode(gs), SizeOf(gs), d, b))
  }

  /**
   * The put of a variable whose initializers are decoded and sized: an
   * absolute access at the top level, otherwise an access just below the
   * locals so far, which then grow by the variable's size.
   */
  function VarWalk(id: NodeId, name: string, inits: seq<int>, size: int, d: nat, b: int): Walk {
    if d == 0 then Walk([PutVar(id, AbsAccess(name, size, Some(inits)))], b)
    else Walk([PutVar(id, RelAccess(VarStartOffset - b - size, d, size, Some(inits), name))], b + size)
  }

  /**
   * visit(FunDef) at stack depth `d`: a fresh accumulator is pushed, the
   * parameters and then the body are walked one level deeper, and the frame
   * adds the static link to the parameters and FP and RA to the locals.
   */
  function DefWalk(def: Def, d: nat, b: int): Result<Walk>
    decreases def
  {
    match def
    case VarDef(id, name, inits) => VarDefWalk(id, name, inits, d, b)
    case FunDef(id, name, pars, stmts) =>
      var pw := ParsWalk(pars, d + 1, 0);
      var bw :- StmtsWalk(stmts, d + 1, 0);
      Ok(Walk(pw.puts + bw.puts + [PutFrame(id, Frame(name, d + 1, pw.parsSize + AddressSize, bw.varsSize + 2 * AddressSize))], b))
  }

  function DefsWalk(defs: seq<Def>, d: nat, b: int): Result<Walk>
    decreases defs
  {
    if |defs| == 0 then Ok(Walk([], b))
    else
      var w :- DefsWalk(defs[..|defs| - 1], d, b);
      var w2 :- DefWalk(defs[|defs| - 1], d, w.varsSize);
      Ok(Walk(w.puts + w2.puts, w2.varsSize))
  }

  /** Statements: only `let` definitions, possibly nested in `if` and `while`, lay anything out. */
  function StmtWalk(s: Stmt, d: nat, b: int): Result<Walk>
    decreases s
  {
    match s
    case ExprStmt(_, _) => Ok(Walk([], b))
    case AssignStmt(_, _, _) => Ok(Walk([], b))
    case IfStmt(_, _, thenStmts, elseStmts) =>
      var w1 :- StmtsWalk(thenStmts, d, b);
      var w2 :- StmtsWalk(elseStmts, d, w1.varsSize);
      Ok(Walk(w1.puts + w2.puts, w2.varsSize))
    case WhileStmt(_, _, stmts) => StmtsWalk(stmts, d, b)
    case LetStmt(_, defs, stmts) =>
      var w1 :- DefsWalk(defs, d, b);
      var w2 :- StmtsWalk(stmts, d, w1.varsSize);
      Ok(Walk(w1.puts + w2.puts, w2.varsSize))
  }

  function StmtsWalk(ss: seq<Stmt>, d: nat, b: int): Result<Walk>
    decreases ss
  {
    if |ss| == 0 then Ok(Walk([], b))
    else
      var w :- StmtsWalk(ss[..|ss| - 1], d, b);
      var w2 :- StmtWalk(ss[|ss| - 1], d, w.varsSize);
      Ok(Walk(w.puts + w2.puts, w2.varsSize))
  }

  /** The accumulator stack with the innermost locals size replaced. */
  function WithVars(stack: seq<FrameFields>, v: int): seq<FrameFields> {
    if |stack| == 0 then stack
    else stack[|stack| - 1 := stack[|stack| - 1].(varsSize := v)]
  }

  // ---------------------------------------------------------------------
  // MemoryOrganizer and its visitor
  // ---------------------------------------------------------------------

  /**
   * The memory visitor: a stack of per-function accumulators and the three
   * attribute tables it fills.
   */
  class MemoryOrganizer {
    var stack: seq<FrameFields>
    var attrAST: MemAttrs

    constructor ()
      ensures stack == [] && attrAST == MemAttrs(map[], map[], map[])
    {
      stack := [];
      attrAST := MemAttrs(map[], map[], map[]);
    }

    /** The locals size of the innermost function (0 outside every function). */
    function CurrentVars(): int
      reads this
    {
      if |stack| == 0 then 0 else stack[|stack| - 1].varsSize
    }

    /**
     * The state after a walk `w` started from tables `m0` and stack `st0`:
     * on success the walk's puts are applied and the innermost locals size
     * is the walk's; a failure is raised as it is.
     */
    predicate Done(w: Result<Walk>, o: Outcome, st0: seq<FrameFields>, m0: MemAttrs)
      reads this
    {
      match w
      case Fail(rep) => o == Raise(rep)
      case Ok(wk) => o == Pass && attrAST == ApplyPuts(m0, wk.puts) && stack == WithVars(st0, wk.varsSize)
    }

    /** organize(): walks the top-level definitions with an empty stack. */
    method Organize(defs: seq<Def>) returns (o: Outcome)
      requires stack == []
      modifies this
      ensures Done(DefsWalk(defs, 0, 0), o, [], old(attrAST))
    {
      o := VisitDefs(defs);
    }

    method VisitDefs(defs: seq<Def>) returns (o: Outcome)
      modifies this
      ensures Done(DefsWalk(defs, |old(stack)|, old(CurrentVars())), o, old(stack), old(attrAST))
      decreases defs, 2
    {
      ghost var st0, m0, b0 := stack, attrAST, CurrentVars();
      ghost var wk := Walk([], b0);
      var i := 0;
      while i < |defs|
        invariant 0 <= i <= |defs|
        invariant DefsWalk(defs[..i], |st0|, b0) == Ok(wk)
        invariant attrAST == ApplyPuts(m0, wk.puts)
        invariant stack == WithVars(st0, wk.varsSize)
        invariant CurrentVars() == wk.varsSize
      {
        ghost var m1, st1 := attrAST, stack;
        DefsWalkStep(defs, i, |st0|, b0, wk);
        o := VisitDef(defs[i]);
        if o.Raise? {
          PrefixWalkFailure(defs, i + 1, |st0|, b0);
          return;
        }
        ghost var w2 := DefWalk(defs[i], |st0|, wk.varsSize).value;
        assert attrAST == ApplyPuts(m1, w2.puts);
        assert stack == WithVars(st1, w2.varsSize);
        WithVarsTwice(st0, wk.varsSize, w2.varsSize);
        DefKeepsOuterVars(defs[i], |st0|, wk.varsSize);
        ApplyPutsAppend(m0, wk.puts, w2.puts);
        wk := Walk(wk.puts + w2.puts, w2.varsSize);
        i := i + 1;
      }
      assert defs[..i] == defs;
      o := Pass;
    }

    method VisitDef(def: Def) returns (o: Outcome)
      modifies this
      ensures Done(DefWalk(def, |old(stack)|, old(CurrentVars())), o, old(stack), old(attrAST))
      decreases def, 1
    {
      match def {
        case VarDef(_, _, _) => o := VisitVarDef(def);
        case FunDef(_, _, _, _) => o := VisitFunDef(def);
      }
    }

    /** visit(VarDef). */
    method VisitVarDef(def: Def) returns (o: Outcome)
      requires def.VarDef?
      modifies this
      ensures Done(DefWalk(def, |old(stack)|, old(CurrentVars())), o, old(stack), old(attrAST))
    {
      ghost var st0, m0, b0 := stack, attrAST, CurrentVars();
      var r := DecodeInits(def.inits);
      if r.Fail? {
        VarDefWalkCases(def, |st0|, b0);
        return Raise(r.report);
      }
      var inits := r.value;
      EncodedSize(DecodedGroups(def.inits).value);
      var varSize := GetVariableSizeInBytes(inits);
      VarDefWalkOk(def, |st0|, b0, inits, varSize);
      PutVarDef(def.id, def.name, inits, varSize);
      o := Pass;
    }

    /** The rest of visit(VarDef), once the initializers are decoded and sized. */
    method PutVarDef(id: NodeId, name: string, inits: seq<int>, varSize: int)
      modifies this
      ensures var w := VarWalk(id, name, inits, varSize, |old(stack)|, old(CurrentVars()));
        attrAST == ApplyPuts(old(attrAST), w.puts) && stack == WithVars(old(stack), w.varsSize)
    {
      ghost var m0 := attrAST;
      var currentDepth := |stack|;
      ghost var put;
      if currentDepth == 0 {
        var absAccess := AbsAccess(name, varSize, Some(inits));
        put := PutVar(id, absAccess);
        PutVarAccess(id, absAccess);
      } else {
        var top := stack[|stack| - 1];
        var relAccess := RelAccess(VarStartOffset - top.varsSize - varSize, currentDepth, varSize, Some(inits), name);
        put := PutVar(id, relAccess);
        PutVarAccess(id, relAccess);
        AddVarsSize(varSize);
      }
      ApplyPutsSingle(m0, put);
    }

    /** `attrVarAccess.put`: records the access of one variable. */
    method PutVarAccess(id: NodeId, access: Access)
      modifies this
      ensures attrAST == ApplyPut(old(attrAST), PutVar(id, access)) && stack == old(stack)
    {
      attrAST := attrAST.(varAccess := attrAST.varAccess[id := access]);
    }

    /** `frameComputedFields.varsSize += size` on the innermost frame. */
    method AddVarsSize(size: int)
      requires |stack| > 0
      modifies this
      ensures stack == WithVars(old(stack), old(CurrentVars()) + size) && attrAST == old(attrAST)
    {
      var top := stack[|stack| - 1];
      stack := stack[|stack| - 1 := top.(varsSize := top.varsSize + size)];
    }

    /** visit(ParDef): only ever reached inside a function, so the stack is not empty. */
    method VisitParDef(par: ParDef)
      requires |stack| > 0
      modifies this
      ensures |stack| == old(|stack|) && stack[..|stack| - 1] == old(stack[..|stack| - 1])
      ensures var top := old(stack[|stack| - 1]);
        stack[|stack| - 1] == top.(parsSize := top.parsSize + NumberSize) &&
        attrAST == ApplyPut(old(attrAST), PutPar(par.id, RelAccess(top.parsSize + AddressSize, |stack|, NumberSize, None, par.name)))
    {
      var top := stack[|stack| - 1];
      var size := NumberSize;
      var relAccess := RelAccess(top.parsSize + AddressSize, |stack|, size, None, par.name);
      attrAST := attrAST.(parAccess := attrAST.parAccess[par.id := relAccess]);
      stack := stack[|stack| - 1 := top.(parsSize := top.parsSize + size)];
    }

    /** The parameters of the innermost function, in order. */
    method VisitPars(pars: seq<ParDef>)
      requires |stack| > 0
      modifies this
      ensures var top := old(stack[|stack| - 1]);
        var pw := ParsWalk(pars, |old(stack)|, top.parsSize);
        stack == old(stack[..|stack| - 1]) + [top.(parsSize := pw.parsSize)] &&
        attrAST == ApplyPuts(old(attrAST), pw.puts)
    {
      ghost var m0, d := attrAST, |stack|;
      ghost var outer, top := stack[..|stack| - 1], stack[|stack| - 1];
      ghost var pw := ParWalk([], top.parsSize);
      var i := 0;
      while i < |pars|
        invariant 0 <= i <= |pars|
        invariant ParsWalk(pars[..i], d, top.parsSize) == pw
        invariant |stack| == d && stack[..d - 1] == outer && stack[d - 1] == top.(parsSize := pw.parsSize)
        invariant attrAST == ApplyPuts(m0, pw.puts)
      {
        ghost var m := attrAST;
        VisitParDef(pars[i]);
        pw := ParsLoopStep(m0, pars, i, d, top.parsSize, pw, m);
        i := i + 1;
      }
      SplitLast(stack);
      assert pars[..i] == pars;
    }

    /** visit(FunDef). */
    method VisitFunDef(def: Def) returns (o: Outcome)
      requires def.FunDef?
      modifies this
      ensures Done(DefWalk(def, |old(stack)|, old(CurrentVars())), o, old(stack), old(attrAST))
      decreases def, 0
    {
      ghost var st0, m0, b0 := stack, attrAST, CurrentVars();
      stack := stack + [FrameFields(0, 0)];
      VisitPars(def.pars);
      ghost var pw := ParsWalk(def.pars, |st0| + 1, 0);
      ghost var m1 := attrAST;
      o := VisitStmts(def.stmts);
      if o.Raise? {
        return;
      }
      ghost var bw := StmtsWalk(def.stmts, |st0| + 1, 0).value;
      ghost var m2 := attrAST;
      ApplyPutsAppend(m0, pw.puts, bw.puts);
      assert m2 == ApplyPuts(m0, pw.puts + bw.puts);
      var currentDepth := |stack|;
      var top := stack[|stack| - 1];
      var frame := Frame(def.name, currentDepth, top.parsSize + AddressSize, top.varsSize + 2 * AddressSize);
      attrAST := attrAST.(frames := attrAST.frames[def.id := frame]);
      stack := stack[..|stack| - 1];
      FunDefWalk(def, |st0|, b0);
      ApplyPutsSnoc(m0, pw.puts + bw.puts, PutFrame(def.id, frame));
      assert attrAST == ApplyPuts(m0, pw.puts + bw.puts + [PutFrame(def.id, frame)]);
      assert stack == WithVars(st0, b0);
      o := Pass;
      ghost var w := Walk(pw.puts + bw.puts + [PutFrame(def.id, frame)], b0);
      assert DefWalk(def, |st0|, b0) == Ok(w);
      assert Done(Ok(w), o, st0, m0);
    }

    method VisitStmts(ss: seq<Stmt>) returns (o: Outcome)
      requires |stack| > 0
      modifies this
      ensures Done(StmtsWalk(ss, |old(stack)|, old(CurrentVars())), o, old(stack), old(attrAST))
      decreases ss, 1
    {
      ghost var st0, m0, b0 := stack, attrAST, CurrentVars();
      ghost var wk := Walk([], b0);
      var i := 0;
      while i < |ss|
        invariant 0 <= i <= |ss|
        invariant StmtsWalk(ss[..i], |st0|, b0) == Ok(wk)
        invariant attrAST == ApplyPuts(m0, wk.puts)
        invariant stack == WithVars(st0, wk.varsSize)
        invariant CurrentVars() == wk.varsSize
      {
        ghost var m1, st1 := attrAST, stack;
        StmtsWalkStep(ss, i, |st0|, b0, wk);
        o := VisitStmt(ss[i]);
        if o.Raise? {
          PrefixStmtsFailure(ss, i + 1, |st0|, b0);
          return;
        }
        ghost var w2 := StmtWalk(ss[i], |st0|, wk.varsSize).value;
        assert attrAST == ApplyPuts(m1, w2.puts);
        assert stack == WithVars(st1, w2.varsSize);
        WithVarsTwice(st0, wk.varsSize, w2.varsSize);
        ApplyPutsAppend(m0, wk.puts, w2.puts);
        wk := Walk(wk.puts + w2.puts, w2.varsSize);
        i := i + 1;
      }
      assert ss[..i] == ss;
      o := Pass;
    }

    method VisitStmt(s: Stmt) returns (o: Outcome)
      requires |stack| > 0
      modifies this
      ensures Done(StmtWalk(s, |old(stack)|, old(CurrentVars())), o, old(stack), old(attrAST))
      decreases s, 0
    {
      ghost var st0, m0 := stack, attrAST;
      match s {
        case ExprStmt(_, _) => o := Pass;
        case AssignStmt(_, _, _) => o := Pass;
        case IfStmt(_, _, thenStmts, elseStmts) =>
          o := VisitStmts(thenStmts);
          if o.Raise? { return; }
          ghost var m1 := attrAST;
          o := VisitStmts(elseStmts);
          if o.Raise? { return; }
          ApplyPutsAppend(m0, StmtsWalk(thenStmts, |st0|, st0[|st0| - 1].varsSize).value.puts,
                              StmtsWalk(elseStmts, |st0|, StmtsWalk(thenStmts, |st0|, st0[|st0| - 1].varsSize).value.varsSize).value.puts);
        case WhileStmt(_, _, stmts) =>
          o := VisitStmts(stmts);
        case LetStmt(_, defs, stmts) =>
          o := VisitDefs(defs);
          if o.Raise? { return; }
          o := VisitStmts(stmts);
          if o.Raise? { return; }
          ApplyPutsAppend(m0, DefsWalk(defs, |st0|, st0[|st0| - 1].varsSize).value.puts,
                              StmtsWalk(stmts, |st0|, DefsWalk(defs, |st0|, st0[|st0| - 1].varsSize).value.varsSize).value.puts);
      }
    }
  }

  lemma WithVarsTwice(st: seq<FrameFields>, v1: int, v2: int)
    ensures |WithVars(st, v1)| == |st|
    ensures WithVars(WithVars(st, v1), v2) == WithVars(st, v2)
    ensures |st| > 0 ==> WithVars(st, v1)[|st| - 1].varsSize == v1
  {
  }

  lemma DefsWalkStep(defs: seq<Def>, i: nat, d: nat, b: int, wk: Walk)
    requires i < |defs| && DefsWalk(defs[..i], d, b) == Ok(wk)
    ensures DefWalk(defs[i], d, wk.varsSize).Fail? ==>
      DefsWalk(defs[..i + 1], d, b) == Fail(DefWalk(defs[i], d, wk.varsSize).report)
    ensures DefWalk(defs[i], d, wk.varsSize).Ok? ==>
      var w2 := DefWalk(defs[i], d, wk.varsSize).value;
      DefsWalk(defs[..i + 1], d, b) == Ok(Walk(wk.puts + w2.puts, w2.varsSize))
  {
    assert defs[..i + 1][..i] == defs[..i];
  }

  lemma StmtsWalkStep(ss: seq<Stmt>, i: nat, d: nat, b: int, wk: Walk)
    requires i < |ss| && StmtsWalk(ss[..i], d, b) == Ok(wk)
    ensures StmtWalk(ss[i], d, wk.varsSize).Fail? ==>
      StmtsWalk(ss[..i + 1], d, b) == Fail(StmtWalk(ss[i], d, wk.varsSize).report)
    ensures StmtWalk(ss[i], d, wk.varsSize).Ok? ==>
      var w2 := StmtWalk(ss[i], d, wk.varsSize).value;
      StmtsWalk(ss[..i + 1], d, b) == Ok(Walk(wk.puts + w2.puts, w2.varsSize))
  {
    assert ss[..i + 1][..i] == ss[..i];
  }

  lemma VarDefWalkCases(def: Def, d: nat, b: int)
    requires def.VarDef?
    ensures DecodedGroups(def.inits).Fail? ==> DefWalk(def, d, b) == Fail(DecodedGroups(def.inits).report)
    ensures DecodedGroups(def.inits).Ok? ==>
      var gs := DecodedGroups(def.inits).value;
      DefWalk(def, d, b) == Ok(VarWalk(def.id, def.name, Encode(gs), SizeOf(gs), d, b))
  {
    assert DefWalk(def, d, b) == VarDefWalk(def.id, def.name, def.inits, d, b);
  }

  /** A variable whose initializers decode: its one put, at the top level or in a frame. */
  lemma VarDefWalkOk(def: Def, d: nat, b: int, inits: seq<int>, size: int)
    requires def.VarDef? && DecodedGroups(def.inits).Ok?
    requires inits == Encode(DecodedGroups(def.inits).value) && size == SizeOf(DecodedGroups(def.inits).value)
    ensures DefWalk(def, d, b) == Ok(VarWalk(def.id, def.name, inits, size, d, b))
  {
    assert DefWalk(def, d, b) == VarDefWalk(def.id, def.name, def.inits, d, b);
  }

  /** A local variable: one put, laid out just below the locals so far. */
  lemma VarDefWalkLocal(def: Def, d: nat, b: int)
    requires def.VarDef? && d >= 1 && DefWalk(def, d, b).Ok?
    ensures DecodedGroups(def.inits).Ok?
    ensures var w := DefWalk(def, d, b).value;
      var size := SizeOf(DecodedGroups(def.inits).value);
      |w.puts| == 1 && w.varsSize == b + size && IsLocalAt(w.puts[0], d) &&
      w.puts[0].varId == def.id && w.puts[0].varAccess.name == def.name &&
      w.puts[0].varAccess.size == size && w.puts[0].varAccess.offset == VarStartOffset - b - size
  {
    VarDefWalkCases(def, d, b);
  }

  /** A function definition, or any definition at depth 0, leaves the enclosing locals size alone. */
  lemma DefKeepsOuterVars(def: Def, d: nat, b: int)
    ensures (def.FunDef? || d == 0) && DefWalk(def, d, b).Ok? ==> DefWalk(def, d, b).value.varsSize == b
  {
  }

  lemma FunDefWalk(def: Def, d: nat, b: int)
    requires def.FunDef?
    ensures var pw := ParsWalk(def.pars, d + 1, 0);
      match StmtsWalk(def.stmts, d + 1, 0)
      case Fail(rep) => DefWalk(def, d, b) == Fail(rep)
      case Ok(bw) =>
        DefWalk(def, d, b) ==
          Ok(Walk(pw.puts + bw.puts + [PutFrame(def.id, Frame(def.name, d + 1, pw.parsSize + AddressSize, bw.varsSize + 2 * AddressSize))], b))
  {
  }

  lemma {:induction false} PrefixWalkFailure(defs: seq<Def>, n: nat, d: nat, b: int)
    requires n <= |defs| && DefsWalk(defs[..n], d, b).Fail?
    ensures DefsWalk(defs, d, b) == DefsWalk(defs[..n], d, b)
    decreases |defs| - n
  {
    if n < |defs| {
      assert defs[..n + 1][..n] == defs[..n];
      PrefixWalkFailure(defs, n + 1, d, b);
    } else {
      assert defs[..n] == defs;
    }
  }

  lemma {:induction false} PrefixStmtsFailure(ss: seq<Stmt>, n: nat, d: nat, b: int)
    requires n <= |ss| && StmtsWalk(ss[..n], d, b).Fail?
    ensures StmtsWalk(ss, d, b) == StmtsWalk(ss[..n], d, b)
    decreases |ss| - n
  {
    if n < |ss| {
      assert ss[..n + 1][..n] == ss[..n];
      PrefixStmtsFailure(ss, n + 1, d, b);
    } else {
      assert ss[..n] == ss;
    }
  }

  // ---------------------------------------------------------------------
  // Layout properties
  // ---------------------------------------------------------------------

  /**
   * Parameters: the i-th one (from 0) sits at `p + 4 + 4*i` when the
   * parameter block had `p` bytes; each takes 4 bytes and has no
   * initializer, and the block grows by exactly 4 per parameter.
   */
  lemma {:induction false} ParamLayout(pars: seq<ParDef>, d: nat, p: int)
    ensures var w := ParsWalk(pars, d, p);
      |w.puts| == |pars| && w.parsSize == p + NumberSize * |pars| &&
      forall i | 0 <= i < |pars| ::
        w.puts[i] == PutPar(pars[i].id, RelAccess(p + AddressSize + NumberSize * i, d, NumberSize, None, pars[i].name))
    decreases |pars|
  {
    if |pars| > 0 {
      ParamLayout(pars[..|pars| - 1], d, p);
    }
  }

  /** A put that lays out a local of the function at depth `d`. */
  predicate IsLocalAt(p: Put, d: int) {
    p.PutVar? && p.varAccess.RelAccess? && p.varAccess.depth == d
  }

  /** The puts that lay out locals of the function at depth `d`, in order. */
  function LocalPuts(ps: seq<Put>, d: int): seq<Put>
    decreases |ps|
  {
    if |ps| == 0 then []
    else LocalPuts(ps[..|ps| - 1], d) + (if IsLocalAt(ps[|ps| - 1], d) then [ps[|ps| - 1]] else [])
  }

  lemma {:induction false} LocalPutsAppend(a: seq<Put>, b: seq<Put>, d: int)
    ensures LocalPuts(a + b, d) == LocalPuts(a, d) + LocalPuts(b, d)
    decreases |b|
  {
    if |b| == 0 {
      assert a + b == a;
    } else {
      assert (a + b)[..|a + b| - 1] == a + b[..|b| - 1];
      LocalPutsAppend(a, b[..|b| - 1], d);
    }
  }

  lemma {:induction false} LocalPutsNone(ps: seq<Put>, d: int)
    requires forall i | 0 <= i < |ps| :: !IsLocalAt(ps[i], d)
    ensures LocalPuts(ps, d) == []
    decreases |ps|
  {
    if |ps| > 0 {
      LocalPutsNone(ps[..|ps| - 1], d);
    }
  }

  /**
   * The variables a function body declares for its own frame, in visiting
   * order: those of `let` statements, also inside `if` and `while`, but not
   * those of nested functions.
   */
  function OwnVarsOfDefs(defs: seq<Def>): (vs: seq<Def>)
    ensures forall i | 0 <= i < |vs| :: vs[i].VarDef?
    decreases |defs|
  {
    if |defs| == 0 then []
    else OwnVarsOfDefs(defs[..|defs| - 1]) + (if defs[|defs| - 1].VarDef? then [defs[|defs| - 1]] else [])
  }

  function OwnVarsOfStmt(s: Stmt): (vs: seq<Def>)
    ensures forall i | 0 <= i < |vs| :: vs[i].VarDef?
    decreases s
  {
    match s
    case ExprStmt(_, _) => []
    case AssignStmt(_, _, _) => []
    case IfStmt(_, _, thenStmts, elseStmts) => OwnVarsOfStmts(thenStmts) + OwnVarsOfStmts(elseStmts)
    case WhileStmt(_, _, stmts) => OwnVarsOfStmts(stmts)
    case LetStmt(_, defs, stmts) => OwnVarsOfDefs(defs) + OwnVarsOfStmts(stmts)
  }

  function OwnVarsOfStmts(ss: seq<Stmt>): (vs: seq<Def>)
    ensures forall i | 0 <= i < |vs| :: vs[i].VarDef?
    decreases ss
  {
    if |ss| == 0 then [] else OwnVarsOfStmts(ss[..|ss| - 1]) + OwnVarsOfStmt(ss[|ss| - 1])
  }

  /** Walking two lists of definitions one after the other. */
  lemma {:induction false} DefsWalkAppend(x: seq<Def>, y: seq<Def>, d: nat, b: int)
    requires DefsWalk(x, d, b).Ok?
    ensures var w := DefsWalk(x, d, b).value;
      DefsWalk(x + y, d, b) ==
        match DefsWalk(y, d, w.varsSize)
        case Fail(rep) => Fail(rep)
        case Ok(w2) => Ok(Walk(w.puts + w2.puts, w2.varsSize))
    decreases |y|
  {
    var w := DefsWalk(x, d, b).value;
    if |y| == 0 {
      assert x + y == x;
      assert w.puts + [] == w.puts;
    } else {
      var y' := y[..|y| - 1];
      DefsWalkAppend(x, y', d, b);
      DefsWalkAppendStep(x, y, d, b, w);
    }
  }

  /** The inductive step of DefsWalkAppend: one more definition at the end of `y`. */
  lemma DefsWalkAppendStep(x: seq<Def>, y: seq<Def>, d: nat, b: int, w: Walk)
    requires |y| > 0 && DefsWalk(x, d, b) == Ok(w)
    requires DefsWalk(x + y[..|y| - 1], d, b) ==
        match DefsWalk(y[..|y| - 1], d, w.varsSize)
        case Fail(rep) => Fail(rep)
        case Ok(w1) => Ok(Walk(w.puts + w1.puts, w1.varsSize))
    ensures DefsWalk(x + y, d, b) ==
        match DefsWalk(y, d, w.varsSize)
        case Fail(rep) => Fail(rep)
        case Ok(w2) => Ok(Walk(w.puts + w2.puts, w2.varsSize))
  {
    var y' := y[..|y| - 1];
    assert (x + y)[..|x + y| - 1] == x + y';
    assert (x + y)[|x + y| - 1] == y[|y| - 1];
    match DefsWalk(y', d, w.varsSize) {
      case Fail(rep) =>
      case Ok(w1) =>
        match DefWalk(y[|y| - 1], d, w1.varsSize) {
          case Fail(rep) =>
          case Ok(w2) =>
            PutsAssoc(w.puts, w1.puts, w2.puts);
        }
    }
  }

  lemma PutsAssoc(a: seq<Put>, b: seq<Put>, c: seq<Put>)
    ensures a + b + c == a + (b + c)
  {
  }

  /**
   * What walking a body at depth `d` lays out for that frame: exactly the
   * walk of its own variables, in order, ending with the same locals size;
   * nothing is laid out for an enclosing frame.
   */
  predicate LaysOutOwn(w: Walk, vs: seq<Def>, d: nat, b: int) {
    DefsWalk(vs, d, b) == Ok(Walk(LocalPuts(w.puts, d), w.varsSize)) &&
    forall k | 0 <= k < d :: LocalPuts(w.puts, k) == []
  }

  lemma {:induction false} LocalsOfStmts(ss: seq<Stmt>, d: nat, b: int)
    requires d >= 1 && StmtsWalk(ss, d, b).Ok?
    ensures LaysOutOwn(StmtsWalk(ss, d, b).value, OwnVarsOfStmts(ss), d, b)
    decreases ss, 1
  {
    if |ss| > 0 {
      var pre, last := ss[..|ss| - 1], ss[|ss| - 1];
      var w := StmtsWalk(pre, d, b).value;
      var w2 := StmtWalk(last, d, w.varsSize).value;
      LocalsOfStmts(pre, d, b);
      LocalsOfStmt(last, d, w.varsSize);
      DefsWalkAppend(OwnVarsOfStmts(pre), OwnVarsOfStmt(last), d, b);
      LocalPutsAppend(w.puts, w2.puts, d);
      forall k | 0 <= k < d
        ensures LocalPuts(w.puts + w2.puts, k) == []
      {
        LocalPutsAppend(w.puts, w2.puts, k);
      }
    }
  }

  lemma {:induction false} LocalsOfStmt(s: Stmt, d: nat, b: int)
    requires d >= 1 && StmtWalk(s, d, b).Ok?
    ensures LaysOutOwn(StmtWalk(s, d, b).value, OwnVarsOfStmt(s), d, b)
    decreases s, 0
  {
    match s {
      case ExprStmt(_, _) =>
      case AssignStmt(_, _, _) =>
      case IfStmt(_, _, thenStmts, elseStmts) =>
        var w1 := StmtsWalk(thenStmts, d, b).value;
        var w2 := StmtsWalk(elseStmts, d, w1.varsSize).value;
        LocalsOfStmts(thenStmts, d, b);
        LocalsOfStmts(elseStmts, d, w1.varsSize);
        DefsWalkAppend(OwnVarsOfStmts(thenStmts), OwnVarsOfStmts(elseStmts), d, b);
        LocalPutsAppend(w1.puts, w2.puts, d);
        forall k | 0 <= k < d
          ensures LocalPuts(w1.puts + w2.puts, k) == []
        {
          LocalPutsAppend(w1.puts, w2.puts, k);
        }
      case WhileStmt(_, _, stmts) =>
        LocalsOfStmts(stmts, d, b);
      case LetStmt(_, defs, stmts) =>
        var w1 := DefsWalk(defs, d, b).value;
        var w2 := StmtsWalk(stmts, d, w1.varsSize).value;
        LocalsOfDefs(defs, d, b);
        LocalsOfStmts(stmts, d, w1.varsSize);
        DefsWalkAppend(OwnVarsOfDefs(defs), OwnVarsOfStmts(stmts), d, b);
        LocalPutsAppend(w1.puts, w2.puts, d);
        forall k | 0 <= k < d
          ensures LocalPuts(w1.puts + w2.puts, k) == []
        {
          LocalPutsAppend(w1.puts, w2.puts, k);
        }
    }
  }

  lemma {:induction false} LocalsOfDefs(defs: seq<Def>, d: nat, b: int)
    requires d >= 1 && DefsWalk(defs, d, b).Ok?
    ensures LaysOutOwn(DefsWalk(defs, d, b).value, OwnVarsOfDefs(defs), d, b)
    decreases defs, 1
  {
    if |defs| > 0 {
      var pre, last := defs[..|defs| - 1], defs[|defs| - 1];
      var w := DefsWalk(pre, d, b).value;
      var w2 := DefWalk(last, d, w.varsSize).value;
      LocalsOfDefs(pre, d, b);
      assert defs == pre + [last];
      if last.VarDef? {
        LocalsOfVarDef(pre, last, d, b);
      } else {
        FunDefLocals(last, d, w.varsSize);
        assert OwnVarsOfDefs(defs) == OwnVarsOfDefs(pre);
        assert DefsWalk(defs, d, b).value == Walk(w.puts + w2.puts, w.varsSize);
        LocalPutsAppend(w.puts, w2.puts, d);
        assert LocalPuts(w.puts + w2.puts, d) == LocalPuts(w.puts, d);
        forall k | 0 <= k < d
          ensures LocalPuts(w.puts + w2.puts, k) == []
        {
          LocalPutsAppend(w.puts, w2.puts, k);
        }
      }
    }
  }

  /** The step of LocalsOfDefs for a variable definition. */
  lemma LocalsOfVarDef(pre: seq<Def>, last: Def, d: nat, b: int)
    requires d >= 1 && last.VarDef? && DefsWalk(pre + [last], d, b).Ok?
    requires LaysOutOwn(DefsWalk(pre, d, b).value, OwnVarsOfDefs(pre), d, b)
    ensures LaysOutOwn(DefsWalk(pre + [last], d, b).value, OwnVarsOfDefs(pre + [last]), d, b)
  {
    var defs := pre + [last];
    assert defs[..|defs| - 1] == pre && defs[|defs| - 1] == last;
    var w := DefsWalk(pre, d, b).value;
    var w2 := DefWalk(last, d, w.varsSize).value;
    assert DefsWalk(defs, d, b).value == Walk(w.puts + w2.puts, w2.varsSize);
    assert OwnVarsOfDefs(defs) == OwnVarsOfDefs(pre) + [last];
    SingleLocalPut(last, d, w.varsSize);
    LocalPutsAppend(w.puts, w2.puts, d);
    DefsWalkAppend(OwnVarsOfDefs(pre), [last], d, b);
    forall k | 0 <= k < d
      ensures LocalPuts(w.puts + w2.puts, k) == []
    {
      LocalPutsAppend(w.puts, w2.puts, k);
    }
  }

  /** A local variable's walk: one put that is local exactly at its own depth. */
  lemma SingleLocalPut(v: Def, d: nat, b: int)
    requires d >= 1 && v.VarDef? && DefWalk(v, d, b).Ok?
    ensures var w2 := DefWalk(v, d, b).value;
      DefsWalk([v], d, b) == Ok(w2) && LocalPuts(w2.puts, d) == w2.puts &&
      forall k | 0 <= k < d :: LocalPuts(w2.puts, k) == []
  {
    var w2 := DefWalk(v, d, b).value;
    VarDefWalkLocal(v, d, b);
    assert [v][..0] == [];
    assert w2.puts[..0] == [];
    assert DefsWalk([v], d, b) == Ok(Walk([] + w2.puts, w2.varsSize));
    assert [] + w2.puts == w2.puts;
  }

  lemma {:induction false} ParsNotLocal(pars: seq<ParDef>, d: nat, p: int, k: int)
    ensures LocalPuts(ParsWalk(pars, d, p).puts, k) == []
    decreases |pars|
  {
    if |pars| > 0 {
      var w := ParsWalk(pars[..|pars| - 1], d, p);
      ParsNotLocal(pars[..|pars| - 1], d, p, k);
      var last := PutPar(pars[|pars| - 1].id, RelAccess(w.parsSize + AddressSize, d, NumberSize, None, pars[|pars| - 1].name));
      assert (w.puts + [last])[..|w.puts|] == w.puts;
    }
  }

  /**
   * A nested function lays out nothing in the frames around it and leaves
   * their locals size as it was.
   */
  lemma {:induction false} FunDefLocals(def: Def, d: nat, b: int)
    requires def.FunDef? && DefWalk(def, d, b).Ok?
    ensures DefWalk(def, d, b).value.varsSize == b
    ensures forall k | 0 <= k <= d :: LocalPuts(DefWalk(def, d, b).value.puts, k) == []
    decreases def, 0
  {
    FunDefWalk(def, d, b);
    var pw := ParsWalk(def.pars, d + 1, 0);
    var bw := StmtsWalk(def.stmts, d + 1, 0).value;
    var frame := PutFrame(def.id, Frame(def.name, d + 1, pw.parsSize + AddressSize, bw.varsSize + 2 * AddressSize));
    assert DefWalk(def, d, b).value.puts == pw.puts + bw.puts + [frame];
    LocalsOfStmts(def.stmts, d + 1, 0);
    forall k | 0 <= k <= d
      ensures LocalPuts(pw.puts + bw.puts + [frame], k) == []
    {
      ParsNotLocal(def.pars, d + 1, 0, k);
      InnerNotLocal(pw.puts, bw.puts, frame, k);
    }
  }

  /** Parameters, body and frame of a function, none of them local at `k`. */
  lemma InnerNotLocal(pp: seq<Put>, bp: seq<Put>, frame: Put, k: int)
    requires LocalPuts(pp, k) == [] && LocalPuts(bp, k) == [] && frame.PutFrame?
    ensures LocalPuts(pp + bp + [frame], k) == []
  {
    LocalPutsAppend(pp + bp, [frame], k);
    LocalPutsAppend(pp, bp, k);
    assert [frame][..0] == [];
  }

  /** Bytes a put reserves (0 for a frame). */
  function PutSize(p: Put): int {
    match p
    case PutFrame(_, _) => 0
    case PutPar(_, a) => a.size
    case PutVar(_, a) => a.size
  }

  function SumSizes(ps: seq<Put>): int
    decreases |ps|
  {
    if |ps| == 0 then 0 else SumSizes(ps[..|ps| - 1]) + PutSize(ps[|ps| - 1])
  }

  lemma {:induction false} SumSizesMonotone(ps: seq<Put>, i: nat, j: nat)
    requires i <= j <= |ps|
    requires forall k | 0 <= k < |ps| :: PutSize(ps[k]) >= 0
    ensures 0 <= SumSizes(ps[..i]) <= SumSizes(ps[..j])
    decreases j
  {
    if j > 0 {
      assert ps[..j][..j - 1] == ps[..j - 1];
      if i < j {
        SumSizesMonotone(ps, i, j - 1);
      } else {
        SumSizesMonotone(ps, j - 1, j - 1);
      }
    }
  }

  /** A run of locals: one put each, and the locals size grows by their sizes. */
  lemma {:induction false} LocalsSize(vs: seq<Def>, d: nat, b: int)
    requires d >= 1 && forall i | 0 <= i < |vs| :: vs[i].VarDef?
    requires DefsWalk(vs, d, b).Ok?
    ensures |DefsWalk(vs, d, b).value.puts| == |vs|
    ensures DefsWalk(vs, d, b).value.varsSize == b + SumSizes(DefsWalk(vs, d, b).value.puts)
    decreases |vs|
  {
    if |vs| > 0 {
      var pre := vs[..|vs| - 1];
      DefsWalkLastLocal(vs, d, b);
      LocalsSize(pre, d, b);
      var ps := DefsWalk(vs, d, b).value.puts;
      assert ps[..|ps| - 1] == DefsWalk(pre, d, b).value.puts;
    }
  }

  /**
   * The i-th of a run of locals gets an FP-relative access at depth `d`
   * under its own id and name, its size is the size of its initializers,
   * and its offset is `-8 - b` minus the sizes of all locals up to and
   * including itself.
   */
  lemma {:induction false} LocalAt(vs: seq<Def>, d: nat, b: int, i: nat)
    requires d >= 1 && forall k | 0 <= k < |vs| :: vs[k].VarDef?
    requires DefsWalk(vs, d, b).Ok? && i < |vs|
    ensures var ps := DefsWalk(vs, d, b).value.puts;
      i < |ps| && IsLocalAt(ps[i], d) && ps[i].varId == vs[i].id && ps[i].varAccess.name == vs[i].name &&
      DecodedGroups(vs[i].inits).Ok? && ps[i].varAccess.size == SizeOf(DecodedGroups(vs[i].inits).value) &&
      ps[i].varAccess.offset == VarStartOffset - b - SumSizes(ps[..i + 1])
    decreases |vs|
  {
    var pre := vs[..|vs| - 1];
    DefsWalkLastLocal(vs, d, b);
    var w := DefsWalk(pre, d, b).value;
    var ps := DefsWalk(vs, d, b).value.puts;
    if i == |vs| - 1 {
      LocalsSize(pre, d, b);
      assert ps[..i + 1] == ps;
      assert ps[..|ps| - 1] == w.puts;
    } else {
      LocalAt(pre, d, b, i);
      assert ps[..i + 1] == ps[..|w.puts|][..i + 1];
      assert ps[i] == w.puts[i] && vs[i] == pre[i];
    }
  }

  /** The whole run of locals laid out one after another (LocalsSize and LocalAt together). */
  lemma LocalsLayout(vs: seq<Def>, d: nat, b: int)
    requires d >= 1 && forall i | 0 <= i < |vs| :: vs[i].VarDef?
    requires DefsWalk(vs, d, b).Ok?
    ensures var ps := DefsWalk(vs, d, b).value.puts;
      |ps| == |vs| && DefsWalk(vs, d, b).value.varsSize == b + SumSizes(ps) &&
      forall i | 0 <= i < |vs| ::
        IsLocalAt(ps[i], d) && ps[i].varId == vs[i].id && ps[i].varAccess.name == vs[i].name &&
        DecodedGroups(vs[i].inits).Ok? && ps[i].varAccess.size == SizeOf(DecodedGroups(vs[i].inits).value) &&
        ps[i].varAccess.offset == VarStartOffset - b - SumSizes(ps[..i + 1])
  {
    LocalsSize(vs, d, b);
    forall i | 0 <= i < |vs|
      ensures var ps := DefsWalk(vs, d, b).value.puts;
        IsLocalAt(ps[i], d) && ps[i].varId == vs[i].id && ps[i].varAccess.name == vs[i].name &&
        DecodedGroups(vs[i].inits).Ok? && ps[i].varAccess.size == SizeOf(DecodedGroups(vs[i].inits).value) &&
        ps[i].varAccess.offset == VarStartOffset - b - SumSizes(ps[..i + 1])
    {
      LocalAt(vs, d, b, i);
    }
  }

  /** The last of a run of locals: one more put, placed just below the others. */
  lemma DefsWalkLastLocal(vs: seq<Def>, d: nat, b: int)
    requires d >= 1 && |vs| > 0 && vs[|vs| - 1].VarDef? && DefsWalk(vs, d, b).Ok?
    ensures DefsWalk(vs[..|vs| - 1], d, b).Ok?
    ensures var w := DefsWalk(vs[..|vs| - 1], d, b).value;
      var v := DefsWalk(vs, d, b).value;
      var last := vs[|vs| - 1];
      DecodedGroups(last.inits).Ok? &&
      var size := SizeOf(DecodedGroups(last.inits).value);
      |v.puts| == |w.puts| + 1 && v.puts[..|w.puts|] == w.puts && v.varsSize == w.varsSize + size &&
      IsLocalAt(v.puts[|w.puts|], d) && v.puts[|w.puts|].varId == last.id &&
      v.puts[|w.puts|].varAccess.name == last.name && v.puts[|w.puts|].varAccess.size == size &&
      v.puts[|w.puts|].varAccess.offset == VarStartOffset - w.varsSize - size
  {
    var w := DefsWalk(vs[..|vs| - 1], d, b).value;
    var last := vs[|vs| - 1];
    VarDefWalkLocal(last, d, w.varsSize);
    var w2 := DefWalk(last, d, w.varsSize).value;
    assert DefsWalk(vs, d, b).value.puts == w.puts + w2.puts;
    assert (w.puts + w2.puts)[..|w.puts|] == w.puts;
  }

  /** Where a local's bytes start and end: `[Lo, Hi)`. */
  function Lo(p: Put): int {
    if p.PutVar? && p.varAccess.RelAccess? then p.varAccess.offset else 0
  }

  function Hi(p: Put): int {
    if p.PutVar? && p.varAccess.RelAccess? then p.varAccess.offset + p.varAccess.size else 0
  }

  /**
   * With non-negative sizes the locals of one frame lie below
   * FP - 8 (below the saved FP and the return address), and no two overlap:
   * a later local lies wholly below an earlier one.
   */
  lemma LocalsDisjoint(vs: seq<Def>, d: nat, b: int)
    requires d >= 1 && forall i | 0 <= i < |vs| :: vs[i].VarDef?
    requires DefsWalk(vs, d, b).Ok?
    requires forall i | 0 <= i < |DefsWalk(vs, d, b).value.puts| :: PutSize(DefsWalk(vs, d, b).value.puts[i]) >= 0
    ensures var ps := DefsWalk(vs, d, b).value.puts;
      (forall i | 0 <= i < |ps| :: Lo(ps[i]) <= Hi(ps[i]) <= VarStartOffset - b) &&
      (forall i, j | 0 <= i < j < |ps| :: Hi(ps[j]) <= Lo(ps[i]))
  {
    LocalsSize(vs, d, b);
    var ps := DefsWalk(vs, d, b).value.puts;
    forall i | 0 <= i < |ps|
      ensures Lo(ps[i]) <= Hi(ps[i]) <= VarStartOffset - b
    {
      LocalBounds(vs, d, b, i, i);
    }
    forall i, j | 0 <= i < j < |ps|
      ensures Hi(ps[j]) <= Lo(ps[i])
    {
      LocalBounds(vs, d, b, i, j);
    }
  }

  /** Local `j` lies below FP - 8 - b and, when `i < j`, wholly below local `i`. */
  lemma LocalBounds(vs: seq<Def>, d: nat, b: int, i: nat, j: nat)
    requires d >= 1 && forall k | 0 <= k < |vs| :: vs[k].VarDef?
    requires DefsWalk(vs, d, b).Ok? && i <= j < |vs|
    requires forall k | 0 <= k < |DefsWalk(vs, d, b).value.puts| :: PutSize(DefsWalk(vs, d, b).value.puts[k]) >= 0
    ensures var ps := DefsWalk(vs, d, b).value.puts;
      j < |ps| && Lo(ps[j]) <= Hi(ps[j]) <= VarStartOffset - b &&
      (i < j ==> Hi(ps[j]) <= Lo(ps[i]))
  {
    LocalsSize(vs, d, b);
    var ps := DefsWalk(vs, d, b).value.puts;
    LocalAt(vs, d, b, i);
    LocalAt(vs, d, b, j);
    PlacedBounds(ps, d, b, i, j);
  }

  /** Two locals placed below `VarStartOffset - b` by running size sums. */
  lemma PlacedBounds(ps: seq<Put>, d: nat, b: int, i: nat, j: nat)
    requires i <= j < |ps| && forall k | 0 <= k < |ps| :: PutSize(ps[k]) >= 0
    requires IsLocalAt(ps[i], d) && ps[i].varAccess.offset == VarStartOffset - b - SumSizes(ps[..i + 1])
    requires IsLocalAt(ps[j], d) && ps[j].varAccess.offset == VarStartOffset - b - SumSizes(ps[..j + 1])
    ensures Lo(ps[j]) <= Hi(ps[j]) <= VarStartOffset - b && (i < j ==> Hi(ps[j]) <= Lo(ps[i]))
  {
    assert ps[..j + 1][..j] == ps[..j];
    SumSizesMonotone(ps, i, j);
    if i < j {
      SumSizesMonotone(ps, i + 1, j);
    }
  }

  /**
   * Lexed literals give non-negative sizes: when every repetition count is
   * a character, a string or a string of decimal digits, every local has a
   * non-negative size.
   */
  lemma LexedSizesNonNegative(vs: seq<Def>, d: nat, b: int)
    requires d >= 1 && forall i | 0 <= i < |vs| :: vs[i].VarDef?
    requires forall i, n | 0 <= i < |vs| && 0 <= n < |vs[i].inits| ::
      vs[i].inits[n].num.kind == IntConst ==>
        forall k | 0 <= k < |vs[i].inits[n].num.value| :: IsDecimalDigit(vs[i].inits[n].num.value[k])
    requires DefsWalk(vs, d, b).Ok?
    ensures forall i | 0 <= i < |DefsWalk(vs, d, b).value.puts| :: PutSize(DefsWalk(vs, d, b).value.puts[i]) >= 0
  {
    LocalsLayout(vs, d, b);
    forall i | 0 <= i < |vs|
      ensures SizeOf(DecodedGroups(vs[i].inits).value) >= 0
    {
      DecodedCountsNonNegative(vs[i].inits, DecodedGroups(vs[i].inits).value);
    }
  }

  /**
   * The frame of a function at depth `d + 1`: its parameter block is the
   * static link plus 4 bytes per parameter, and its locals block is FP and
   * RA plus the sizes of exactly the variables its body declares for it
   * (nested functions' variables excluded).  Hence at least 4 and, with
   * non-negative sizes, at least 8 bytes.
   */
  lemma FunDefFrame(def: Def, d: nat, b: int)
    requires def.FunDef? && DefWalk(def, d, b).Ok?
    ensures var w := DefWalk(def, d, b).value;
      var locals := DefsWalk(OwnVarsOfStmts(def.stmts), d + 1, 0);
      locals.Ok? && |w.puts| > 0 && w.varsSize == b &&
      w.puts[|w.puts| - 1] ==
        PutFrame(def.id, Frame(def.name, d + 1, AddressSize + NumberSize * |def.pars|, 2 * AddressSize + SumSizes(locals.value.puts))) &&
      AddressSize + NumberSize * |def.pars| >= 4 &&
      ((forall i | 0 <= i < |locals.value.puts| :: PutSize(locals.value.puts[i]) >= 0) ==>
        2 * AddressSize + SumSizes(locals.value.puts) >= 8)
  {
    FunDefWalk(def, d, b);
    var pw := ParsWalk(def.pars, d + 1, 0);
    var bw := StmtsWalk(def.stmts, d + 1, 0).value;
    ParsSize(def.pars, d + 1, 0);
    BodyLocalsSize(def.stmts, d + 1);
    var locals := DefsWalk(OwnVarsOfStmts(def.stmts), d + 1, 0).value;
    FramedSizes(pw, bw, locals.puts, def.id, def.name, d + 1, |def.pars|, b);
  }

  /** The frame closing a walk of `n` parameters and a body whose locals are `ps`. */
  lemma FramedSizes(pw: ParWalk, bw: Walk, ps: seq<Put>, id: NodeId, name: string, depth: nat, n: nat, b: int)
    requires pw.parsSize == NumberSize * n && bw.varsSize == SumSizes(ps)
    ensures var f := PutFrame(id, Frame(name, depth, pw.parsSize + AddressSize, bw.varsSize + 2 * AddressSize));
      var w := Walk(pw.puts + bw.puts + [f], b);
      |w.puts| > 0 && w.puts[|w.puts| - 1] == PutFrame(id, Frame(name, depth, AddressSize + NumberSize * n, 2 * AddressSize + SumSizes(ps))) &&
      AddressSize + NumberSize * n >= 4 &&
      ((forall i | 0 <= i < |ps| :: PutSize(ps[i]) >= 0) ==> 2 * AddressSize + SumSizes(ps) >= 8)
  {
    if forall i | 0 <= i < |ps| :: PutSize(ps[i]) >= 0 {
      SumSizesNonNegative(ps);
    }
  }

  /** The parameter block grows by 4 bytes per parameter. */
  lemma {:induction false} ParsSize(pars: seq<ParDef>, d: nat, p: int)
    ensures ParsWalk(pars, d, p).parsSize == p + NumberSize * |pars|
    decreases |pars|
  {
    if |pars| > 0 {
      ParsSize(pars[..|pars| - 1], d, p);
    }
  }

  lemma SumSizesNonNegative(ps: seq<Put>)
    requires forall i | 0 <= i < |ps| :: PutSize(ps[i]) >= 0
    ensures SumSizes(ps) >= 0
  {
    SumSizesMonotone(ps, 0, |ps|);
    assert ps[..|ps|] == ps;
  }

  /** A function body's locals size is the sum of the sizes of its own variables. */
  lemma BodyLocalsSize(ss: seq<Stmt>, d: nat)
    requires d >= 1 && StmtsWalk(ss, d, 0).Ok?
    ensures DefsWalk(OwnVarsOfStmts(ss), d, 0).Ok?
    ensures StmtsWalk(ss, d, 0).value.varsSize == SumSizes(DefsWalk(OwnVarsOfStmts(ss), d, 0).value.puts)
  {
    LocalsOfStmts(ss, d, 0);
    LocalsSize(OwnVarsOfStmts(ss), d, 0);
  }

  /**
   * The locals a function's walk lays out in its own frame are exactly the
   * variables its body declares for it, in order; with non-negative sizes
   * each lies within the frame's locals block, between `FP - varsSize` and
   * `FP - 8`, and no two of them overlap.
   */
  lemma FunDefOwnLocals(def: Def, d: nat, b: int)
    requires def.FunDef? && DefWalk(def, d, b).Ok?
    ensures var w := DefWalk(def, d, b).value;
      |w.puts| > 0 && w.puts[|w.puts| - 1].PutFrame? &&
      PlacedInFrame(LocalPuts(w.puts, d + 1), OwnVarsOfStmts(def.stmts), d + 1, w.puts[|w.puts| - 1].frame.varsSize)
  {
    var vs := OwnVarsOfStmts(def.stmts);
    OwnLocalPuts(def, d, b);
    LocalsInFrame(vs, d + 1);
    var w := DefWalk(def, d, b).value;
    var locals := DefsWalk(vs, d + 1, 0).value;
    assert LocalPuts(w.puts, d + 1) == locals.puts;
    assert w.puts[|w.puts| - 1].frame.varsSize == 2 * AddressSize + locals.varsSize;
  }

  /**
   * `ps` lays out the variables `vs` at depth `d`, one each and in order; with
   * non-negative sizes each lies in `[FP - varsSize, FP - 8)` and no two overlap.
   */
  predicate PlacedInFrame(ps: seq<Put>, vs: seq<Def>, d: int, varsSize: int) {
    |ps| == |vs| && (forall i | 0 <= i < |ps| :: IsLocalAt(ps[i], d) && ps[i].varId == vs[i].id) &&
    ((forall i | 0 <= i < |ps| :: PutSize(ps[i]) >= 0) ==>
      (forall i | 0 <= i < |ps| :: -varsSize <= Lo(ps[i]) <= Hi(ps[i]) <= VarStartOffset) &&
      (forall i, j | 0 <= i < j < |ps| :: Hi(ps[j]) <= Lo(ps[i])))
  }

  /** A frame's run of locals, starting at locals size 0, fits its locals block `8 + sizes`. */
  lemma LocalsInFrame(vs: seq<Def>, d: nat)
    requires d >= 1 && forall i | 0 <= i < |vs| :: vs[i].VarDef?
    requires DefsWalk(vs, d, 0).Ok?
    ensures PlacedInFrame(DefsWalk(vs, d, 0).value.puts, vs, d, 2 * AddressSize + DefsWalk(vs, d, 0).value.varsSize)
  {
    var ps := DefsWalk(vs, d, 0).value.puts;
    LocalsLayout(vs, d, 0);
    PlacedFromLayout(ps, vs, d);
  }

  /** Locals placed one below the other from `FP - 8` by running size sums. */
  lemma PlacedFromLayout(ps: seq<Put>, vs: seq<Def>, d: nat)
    requires |ps| == |vs|
    requires forall i | 0 <= i < |ps| ::
      IsLocalAt(ps[i], d) && ps[i].varId == vs[i].id && ps[i].varAccess.offset == VarStartOffset - 0 - SumSizes(ps[..i + 1])
    ensures PlacedInFrame(ps, vs, d, 2 * AddressSize + SumSizes(ps))
  {
    if forall i | 0 <= i < |ps| :: PutSize(ps[i]) >= 0 {
      forall i | 0 <= i < |ps|
        ensures -(2 * AddressSize + SumSizes(ps)) <= Lo(ps[i]) <= Hi(ps[i]) <= VarStartOffset
      {
        PlacedBounds(ps, d, 0, i, i);
        SumSizesMonotone(ps, i + 1, |ps|);
        assert ps[..|ps|] == ps;
      }
      forall i, j | 0 <= i < j < |ps|
        ensures Hi(ps[j]) <= Lo(ps[i])
      {
        PlacedBounds(ps, d, 0, i, j);
      }
    }
  }

  /** A function's walk: its own locals are those of its body's variables, and its frame comes last. */
  lemma OwnLocalPuts(def: Def, d: nat, b: int)
    requires def.FunDef? && DefWalk(def, d, b).Ok?
    ensures var w := DefWalk(def, d, b).value;
      var locals := DefsWalk(OwnVarsOfStmts(def.stmts), d + 1, 0);
      locals.Ok? && LocalPuts(w.puts, d + 1) == locals.value.puts &&
      |w.puts| > 0 && w.puts[|w.puts| - 1].PutFrame? &&
      w.puts[|w.puts| - 1].frame.varsSize == 2 * AddressSize + locals.value.varsSize
  {
    FunDefWalk(def, d, b);
    var pw := ParsWalk(def.pars, d + 1, 0);
    var bw := StmtsWalk(def.stmts, d + 1, 0).value;
    var frame := PutFrame(def.id, Frame(def.name, d + 1, pw.parsSize + AddressSize, bw.varsSize + 2 * AddressSize));
    assert DefWalk(def, d, b).value.puts == pw.puts + bw.puts + [frame];
    LocalsOfStmts(def.stmts, d + 1, 0);
    ParsNotLocal(def.pars, d + 1, 0, d + 1);
    LocalsAmidFrame(pw.puts, bw.puts, frame, d + 1);
  }

  /** Parameters, body and frame: only the body's puts can be local at `k`. */
  lemma LocalsAmidFrame(pp: seq<Put>, bp: seq<Put>, frame: Put, k: int)
    requires LocalPuts(pp, k) == [] && frame.PutFrame?
    ensures LocalPuts(pp + bp + [frame], k) == LocalPuts(bp, k)
    ensures |pp + bp + [frame]| > 0 && (pp + bp + [frame])[|pp + bp + [frame]| - 1] == frame
  {
    LocalPutsAppend(pp + bp, [frame], k);
    LocalPutsAppend(pp, bp, k);
    assert [frame][..0] == [];
  }

  // ---------------------------------------------------------------------
  // Frame depths: the number of enclosing function definitions
  // ---------------------------------------------------------------------

  /** The functions framed by a list of puts, with the depth of each frame, in order. */
  function FrameDepths(ps: seq<Put>): seq<(NodeId, int)>
    decreases |ps|
  {
    if |ps| == 0 then []
    else
      var last := ps[|ps| - 1];
      FrameDepths(ps[..|ps| - 1]) + (if last.PutFrame? then [(last.funId, last.frame.depth)] else [])
  }

  lemma {:induction false} FrameDepthsAppend(a: seq<Put>, b: seq<Put>)
    ensures FrameDepths(a + b) == FrameDepths(a) + FrameDepths(b)
    decreases |b|
  {
    if |b| == 0 {
      assert a + b == a;
    } else {
      assert (a + b)[..|a + b| - 1] == a + b[..|b| - 1];
      FrameDepthsAppend(a, b[..|b| - 1]);
    }
  }

  lemma {:induction false} ParsNoFrames(pars: seq<ParDef>, d: nat, p: int)
    ensures FrameDepths(ParsWalk(pars, d, p).puts) == []
    decreases |pars|
  {
    if |pars| > 0 {
      var w := ParsWalk(pars[..|pars| - 1], d, p);
      ParsNoFrames(pars[..|pars| - 1], d, p);
      var last := PutPar(pars[|pars| - 1].id, RelAccess(w.parsSize + AddressSize, d, NumberSize, None, pars[|pars| - 1].name));
      assert (w.puts + [last])[..|w.puts|] == w.puts;
    }
  }

  /**
   * Every function definition in the given definitions, in post-order
   * (nested functions before the function around them), paired with the
   * number of function definitions that enclose it, itself included; `n`
   * function definitions enclose the list itself.
   */
  function NestingOfDefs(defs: seq<Def>, n: nat): seq<(NodeId, int)>
    decreases defs
  {
    if |defs| == 0 then [] else NestingOfDefs(defs[..|defs| - 1], n) + NestingOfDef(defs[|defs| - 1], n)
  }

  function NestingOfDef(def: Def, n: nat): seq<(NodeId, int)>
    decreases def
  {
    match def
    case VarDef(_, _, _) => []
    case FunDef(id, _, _, stmts) => NestingOfStmts(stmts, n + 1) + [(id, n + 1)]
  }

  function NestingOfStmt(s: Stmt, n: nat): seq<(NodeId, int)>
    decreases s
  {
    match s
    case ExprStmt(_, _) => []
    case AssignStmt(_, _, _) => []
    case IfStmt(_, _, thenStmts, elseStmts) => NestingOfStmts(thenStmts, n) + NestingOfStmts(elseStmts, n)
    case WhileStmt(_, _, stmts) => NestingOfStmts(stmts, n)
    case LetStmt(_, defs, stmts) => NestingOfDefs(defs, n) + NestingOfStmts(stmts, n)
  }

  function NestingOfStmts(ss: seq<Stmt>, n: nat): seq<(NodeId, int)>
    decreases ss
  {
    if |ss| == 0 then [] else NestingOfStmts(ss[..|ss| - 1], n) + NestingOfStmt(ss[|ss| - 1], n)
  }

  /**
   * The frame of every function gets as its depth the number of function
   * definitions enclosing it, itself included: walking at stack depth `d`
   * frames exactly the functions NestingOfDefs lists for `d` enclosing ones.
   */
  lemma {:induction false} DepthsOfDefs(defs: seq<Def>, d: nat, b: int)
    requires DefsWalk(defs, d, b).Ok?
    ensures FrameDepths(DefsWalk(defs, d, b).value.puts) == NestingOfDefs(defs, d)
    decreases defs, 1
  {
    if |defs| > 0 {
      var pre, last := defs[..|defs| - 1], defs[|defs| - 1];
      var w := DefsWalk(pre, d, b).value;
      DepthsOfDefs(pre, d, b);
      DepthsOfDef(last, d, w.varsSize);
      FrameDepthsAppend(w.puts, DefWalk(last, d, w.varsSize).value.puts);
    }
  }

  lemma {:induction false} DepthsOfDef(def: Def, d: nat, b: int)
    requires DefWalk(def, d, b).Ok?
    ensures FrameDepths(DefWalk(def, d, b).value.puts) == NestingOfDef(def, d)
    decreases def, 0
  {
    if def.VarDef? {
      VarDefWalkCases(def, d, b);
      var p := DefWalk(def, d, b).value.puts;
      assert |p| == 1 && p[0].PutVar? && p[..0] == [];
    } else {
      var pw := ParsWalk(def.pars, d + 1, 0);
      var bw := StmtsWalk(def.stmts, d + 1, 0).value;
      var frame := PutFrame(def.id, Frame(def.name, d + 1, pw.parsSize + AddressSize, bw.varsSize + 2 * AddressSize));
      FunDefWalk(def, d, b);
      assert DefWalk(def, d, b).value.puts == (pw.puts + bw.puts) + [frame];
      DepthsOfStmts(def.stmts, d + 1, 0);
      FunFrameDepths(pw.puts, bw.puts, frame, NestingOfStmts(def.stmts, d + 1), def.pars, d + 1);
    }
  }

  lemma FunFrameDepths(pp: seq<Put>, bp: seq<Put>, frame: Put, inner: seq<(NodeId, int)>, pars: seq<ParDef>, d: nat)
    requires pp == ParsWalk(pars, d, 0).puts && FrameDepths(bp) == inner && frame.PutFrame?
    ensures FrameDepths((pp + bp) + [frame]) == inner + [(frame.funId, frame.frame.depth)]
  {
    ParsNoFrames(pars, d, 0);
    FrameDepthsAppend(pp, bp);
    FrameDepthsAppend(pp + bp, [frame]);
    assert [frame][..0] == [];
  }

  lemma {:induction false} DepthsOfStmts(ss: seq<Stmt>, d: nat, b: int)
    requires StmtsWalk(ss, d, b).Ok?
    ensures FrameDepths(StmtsWalk(ss, d, b).value.puts) == NestingOfStmts(ss, d)
    decreases ss, 1
  {
    if |ss| > 0 {
      var pre, last := ss[..|ss| - 1], ss[|ss| - 1];
      var w := StmtsWalk(pre, d, b).value;
      DepthsOfStmts(pre, d, b);
      DepthsOfStmt(last, d, w.varsSize);
      FrameDepthsAppend(w.puts, StmtWalk(last, d, w.varsSize).value.puts);
    }
  }

  lemma {:induction false} DepthsOfStmt(s: Stmt, d: nat, b: int)
    requires StmtWalk(s, d, b).Ok?
    ensures FrameDepths(StmtWalk(s, d, b).value.puts) == NestingOfStmt(s, d)
    decreases s, 0
  {
    match s {
      case ExprStmt(_, _) =>
      case AssignStmt(_, _, _) =>
      case IfStmt(_, _, thenStmts, elseStmts) =>
        var w1 := StmtsWalk(thenStmts, d, b).value;
        DepthsOfStmts(thenStmts, d, b);
        DepthsOfStmts(elseStmts, d, w1.varsSize);
        FrameDepthsAppend(w1.puts, StmtsWalk(elseStmts, d, w1.varsSize).value.puts);
      case WhileStmt(_, _, stmts) =>
        DepthsOfStmts(stmts, d, b);
      case LetStmt(_, defs, stmts) =>
        var w1 := DefsWalk(defs, d, b).value;
        DepthsOfDefs(defs, d, b);
        DepthsOfStmts(stmts, d, w1.varsSize);
        FrameDepthsAppend(w1.puts, StmtsWalk(stmts, d, w1.varsSize).value.puts);
    }
  }

  // ---------------------------------------------------------------------
  // AttrAST.initsToString: the printed form of an initializer encoding
  // ---------------------------------------------------------------------

  /** `k` copies of the value group `vs` one after another (none for `k <= 0`). */
  function Repeat(vs: seq<int>, k: int): seq<int>
    decreases k
  {
    if k <= 0 then [] else Repeat(vs, k - 1) + vs
  }

  /** The values a variable is initialized with: every group expanded `num` times, in order. */
  function Expanded(gs: seq<InitGroup>): seq<int>
    decreases |gs|
  {
    if |gs| == 0 then [] else Expanded(gs[..|gs| - 1]) + Repeat(gs[|gs| - 1].vals, gs[|gs| - 1].num)
  }

  /** Values in decimal, separated by commas. */
  function Join(vs: seq<int>): string
    decreases |vs|
  {
    if |vs| == 0 then "" else Join(vs[..|vs| - 1]) + Piece(|vs| - 1, vs[|vs| - 1])
  }

  /** At most `MaxPrintedValues` values are printed; `...` marks that more follow. */
  const MaxPrintedValues: nat := 10

  /** The text for the values printed so far. */
  function PrintedText(vs: seq<int>): string {
    " inits=" + Join(vs)
  }

  /** What printing one more value appends after `k` printed values. */
  function Piece(k: nat, x: int): string {
    (if k > 0 then "," else "") + IntToString(x)
  }

  /** The text initsToString appends for the initial values `vs`. */
  function InitsText(vs: seq<int>): string {
    if |vs| <= MaxPrintedValues then PrintedText(vs) else PrintedText(vs[..MaxPrintedValues]) + "..."
  }

  /** A well-formed encoding (as decodeInits produces it): a header counting whole groups. */
  predicate WellFormedInits(e: seq<int>) {
    |e| >= 1 && Tiles(e[1..]) && e[0] == |GroupsOf(e[1..])|
  }

  lemma EncodeWellFormed(gs: seq<InitGroup>)
    ensures WellFormedInits(Encode(gs)) && GroupsOf(Encode(gs)[1..]) == gs
  {
    EncodeHeader(gs);
  }

  lemma PrintedSnoc(vs: seq<int>, x: int)
    ensures PrintedText(vs + [x]) == PrintedText(vs) + Piece(|vs|, x)
  {
    assert (vs + [x])[..|vs|] == vs;
  }

  lemma {:induction false} RepeatPrefix(vs: seq<int>, n: int, k: int)
    requires 0 <= n <= k
    ensures Repeat(vs, n) <= Repeat(vs, k)
    decreases k
  {
    if n < k {
      RepeatPrefix(vs, n, k - 1);
    }
  }

  lemma {:induction false} ExpandedPrefix(gs: seq<InitGroup>, i: nat)
    requires i <= |gs|
    ensures Expanded(gs[..i]) <= Expanded(gs)
    decreases |gs| - i
  {
    if i < |gs| {
      ExpandedPrefix(gs, i + 1);
      assert gs[..i + 1][..i] == gs[..i];
    } else {
      assert gs[..i] == gs;
    }
  }

  /** The copy loop ends after `num` copies, or at once when `num` is not positive. */
  lemma RepeatDone(vals: seq<int>, n: int, num: int)
    requires 0 <= n <= (if num >= 0 then num else 0) && !(n < num)
    ensures Repeat(vals, n) == Repeat(vals, num)
  {
  }

  lemma CopyStep(before: seq<int>, vals: seq<int>, n: int, num: int, all: seq<int>)
    requires 0 <= n < num && before + Repeat(vals, num) <= all
    ensures (before + Repeat(vals, n)) + vals == before + Repeat(vals, n + 1)
    ensures (before + Repeat(vals, n)) + vals <= all
  {
    RepeatPrefix(vals, n + 1, num);
    assert before + Repeat(vals, n + 1) <= before + Repeat(vals, num);
  }

  /** While printing a group up to value `l`, the next value is still due. */
  lemma GroupPrefix(before: seq<int>, vals: seq<int>, l: nat, all: seq<int>)
    requires l < |vals| && before + vals <= all
    ensures before + vals[..l + 1] <= all
  {
    assert before + vals[..l + 1] <= before + vals;
  }

  /** At most ten values: the text is not cut. */
  lemma TextUncut(vs: seq<int>)
    requires |vs| <= MaxPrintedValues
    ensures InitsText(vs) == PrintedText(vs)
  {
  }

  /** Ten values printed and a next one exists: the text is cut there. */
  lemma TextCut(done: seq<int>, x: int, all: seq<int>)
    requires |done| == MaxPrintedValues && done + [x] <= all
    ensures PrintedText(done) + "..." == InitsText(all)
  {
    assert all[..MaxPrintedValues] == done;
  }

  /** Printing value `l` of a group after `before` and the values before it. */
  lemma SliceAt(s: seq<int>, p: nat, n: nat, l: nat)
    requires p + n <= |s| && l < n
    ensures s[p..p + n][l] == s[p + l]
  {
  }

  lemma ValuePrinted(before: seq<int>, vals: seq<int>, l: nat)
    requires l < |vals|
    ensures PrintedText(before + vals[..l + 1]) == PrintedText(before + vals[..l]) + Piece(|before| + l, vals[l])
  {
    assert before + vals[..l + 1] == (before + vals[..l]) + [vals[l]];
    PrintedSnoc(before + vals[..l], vals[l]);
  }

  /** Value `l` of a group is due after ten printed values: the text is cut there. */
  lemma ValueCut(before: seq<int>, vals: seq<int>, l: nat, all: seq<int>)
    requires l < |vals| && before + vals <= all && |before| + l == MaxPrintedValues
    ensures PrintedText(before + vals[..l]) + "..." == InitsText(all)
  {
    assert before + vals[..l + 1] == (before + vals[..l]) + [vals[l]];
    GroupPrefix(before, vals, l, all);
    TextCut(before + vals[..l], vals[l], all);
  }

  /** Where group `i` starts in the flat form of the groups `gs`. */
  function GroupStart(gs: seq<InitGroup>, i: nat): nat
    requires i <= |gs|
  {
    |EncodeGroups(gs[..i])|
  }

  lemma GroupStartStep(gs: seq<InitGroup>, i: nat)
    requires i < |gs|
    ensures GroupStart(gs, i + 1) == GroupStart(gs, i) + 2 + |gs[i].vals|
  {
    assert gs[..i + 1] == gs[..i] + [gs[i]];
    EncodeGroupsSnoc(gs[..i], gs[i]);
  }

  lemma {:induction false} EncodeGroupsAppend(a: seq<InitGroup>, b: seq<InitGroup>)
    ensures EncodeGroups(a + b) == EncodeGroups(a) + EncodeGroups(b)
    decreases |a|
  {
    if |a| == 0 {
      assert a + b == b;
    } else {
      assert (a + b)[1..] == a[1..] + b;
      EncodeGroupsAppend(a[1..], b);
    }
  }

  /** The flat form of the groups around group `i`. */
  lemma EncodeSplit(gs: seq<InitGroup>, i: nat)
    requires i < |gs|
    ensures EncodeGroups(gs) == EncodeGroups(gs[..i]) + (Chunk(gs[i]) + EncodeGroups(gs[i + 1..]))
  {
    TakeDropSplit(gs, i);
    EncodeGroupsAppend(gs[..i], gs[i..]);
    EncodeGroupsFrom(gs, i);
  }

  lemma TakeDropSplit<T>(s: seq<T>, i: nat)
    requires i <= |s|
    ensures s[..i] + s[i..] == s
  {
  }

  lemma EncodeGroupsFrom(gs: seq<InitGroup>, i: nat)
    requires i < |gs|
    ensures EncodeGroups(gs[i..]) == Chunk(gs[i]) + EncodeGroups(gs[i + 1..])
  {
    assert gs[i..][0] == gs[i] && gs[i..][1..] == gs[i + 1..];
  }

  /** A group read at its start within a flat form: its header and its values. */
  lemma ChunkAt(pre: seq<int>, g: InitGroup, post: seq<int>)
    ensures var e := pre + (Chunk(g) + post); var p := |pre|;
      p + 2 + |g.vals| <= |e| && e[p] == g.num && e[p + 1] == |g.vals| && e[p + 2..p + 2 + |g.vals|] == g.vals
  {
    var e := pre + (Chunk(g) + post);
    var p := |pre|;
    assert e[p + 2..p + 2 + |g.vals|] == Chunk(g)[2..];
  }

  /** Group `i` of a flat group list, read at its start: its header and its values. */
  lemma EncodedGroupAt(e: seq<int>, i: nat)
    requires Tiles(e) && i < |GroupsOf(e)|
    ensures var gs := GroupsOf(e); var p := GroupStart(gs, i);
      p + 2 + |gs[i].vals| <= |e| && e[p] == gs[i].num && e[p + 1] == |gs[i].vals| &&
      e[p + 2..p + 2 + |gs[i].vals|] == gs[i].vals
  {
    GroupsOfRoundTrip(e);
    GroupAtEncoding(GroupsOf(e), i);
  }

  /** Group `i` of a group list, read at its start in the flat form. */
  lemma GroupAtEncoding(gs: seq<InitGroup>, i: nat)
    requires i < |gs|
    ensures var e := EncodeGroups(gs); var p := GroupStart(gs, i);
      p + 2 + |gs[i].vals| <= |e| && e[p] == gs[i].num && e[p + 1] == |gs[i].vals| &&
      e[p + 2..p + 2 + |gs[i].vals|] == gs[i].vals
  {
    EncodeSplit(gs, i);
    ChunkAt(EncodeGroups(gs[..i]), gs[i], EncodeGroups(gs[i + 1..]));
  }

  /** A slice of the tail of `s`, read in `s` itself. */
  lemma TailSlice(s: seq<int>, a: nat, b: nat)
    requires a <= b < |s|
    ensures s[1..][a..b] == s[a + 1..b + 1]
  {
  }

  /** Group `i` of a well-formed encoding, read at its start: its header and its values. */
  lemma InitsGroupAt(inits: seq<int>, i: nat)
    requires WellFormedInits(inits) && i < |GroupsOf(inits[1..])|
    ensures var gs := GroupsOf(inits[1..]); var p := 1 + GroupStart(gs, i);
      p + 2 + |gs[i].vals| <= |inits| && inits[p] == gs[i].num && inits[p + 1] == |gs[i].vals| &&
      inits[p + 2..p + 2 + |gs[i].vals|] == gs[i].vals
  {
    var e := inits[1..];
    EncodedGroupAt(e, i);
    var gs := GroupsOf(e);
    var q := GroupStart(gs, i);
    TailSlice(inits, q + 2, q + 2 + |gs[i].vals|);
  }

  /** Reading group `i` at its start: header, values, and where the next group starts. */
  lemma GroupRead(inits: seq<int>, gs: seq<InitGroup>, i: nat, p: nat)
    requires WellFormedInits(inits) && gs == GroupsOf(inits[1..]) && i < |gs| && p == 1 + GroupStart(gs, i)
    ensures p + 2 + |gs[i].vals| <= |inits| && inits[p] == gs[i].num && inits[p + 1] == |gs[i].vals|
    ensures inits[p + 2..p + 2 + inits[p + 1]] == gs[i].vals
    ensures p + 2 + inits[p + 1] == 1 + GroupStart(gs, i + 1)
  {
    InitsGroupAt(inits, i);
    GroupStartStep(gs, i);
  }

  /** The values of the first `i` groups, expanded. */
  function ExpandedUpTo(gs: seq<InitGroup>, i: nat): seq<int>
    requires i <= |gs|
    decreases i
  {
    if i == 0 then [] else ExpandedUpTo(gs, i - 1) + Repeat(gs[i - 1].vals, gs[i - 1].num)
  }

  lemma {:induction false} ExpandedUpToPrefix(gs: seq<InitGroup>, i: nat)
    requires i <= |gs|
    ensures ExpandedUpTo(gs, i) == Expanded(gs[..i])
    decreases i
  {
    if i > 0 {
      ExpandedUpToPrefix(gs, i - 1);
      assert gs[..i][..i - 1] == gs[..i - 1];
    }
  }

  /** After all copies of group `i`, the values of groups `0..i` are a prefix of all values. */
  lemma ExpandedStep(gs: seq<InitGroup>, i: nat)
    requires i < |gs|
    ensures ExpandedUpTo(gs, i) + Repeat(gs[i].vals, gs[i].num) <= Expanded(gs)
  {
    ExpandedUpToPrefix(gs, i + 1);
    ExpandedPrefix(gs, i + 1);
  }

  lemma ExpandedAll(gs: seq<InitGroup>)
    ensures ExpandedUpTo(gs, |gs|) == Expanded(gs)
  {
    ExpandedUpToPrefix(gs, |gs|);
    assert gs[..|gs|] == gs;
  }

  /**
   * initsToString (with the value pointer moved past a group after its
   * copies, see Findings): every group expanded `num` times, values in
   * decimal separated by commas, cut with `...` after ten values.
   */
  method InitsToString(inits: seq<int>) returns (out: string)
    requires WellFormedInits(inits)
    ensures out == InitsText(Expanded(GroupsOf(inits[1..])))
  {
    ghost var gs := GroupsOf(inits[1..]);
    ghost var done: seq<int> := [];
    out := " inits=";
    var numPrintedVals := 0;
    var valPtr := 1;
    var init := 0;
    while init < inits[0]
      invariant 0 <= init <= |gs| && valPtr == 1 + GroupStart(gs, init)
      invariant done == ExpandedUpTo(gs, init) && numPrintedVals == |done| <= MaxPrintedValues
      invariant out == PrintedText(done)
      decreases |gs| - init
    {
      GroupRead(inits, gs, init, valPtr);
      ExpandedStep(gs, init);
      var stopped;
      out, numPrintedVals, valPtr, stopped := PrintGroupAt(inits, valPtr, out, numPrintedVals, gs[init], done, Expanded(gs));
      if stopped {
        return;
      }
      done := done + Repeat(gs[init].vals, gs[init].num);
      init := init + 1;
    }
    assert init == |gs|;
    ExpandedAll(gs);
    TextUncut(done);
  }

  /**
   * One turn of initsToString's outer loop: the header of group `init`
   * read at `valPtr`, its copies printed, and the pointer moved past its
   * values.
   */
  method PrintGroupAt(inits: seq<int>, valPtr0: nat, out0: string, printed0: nat,
                      ghost g: InitGroup, ghost done0: seq<int>, ghost all: seq<int>)
    returns (out: string, numPrintedVals: nat, valPtr: nat, stopped: bool)
    requires valPtr0 + 2 + |g.vals| <= |inits| && inits[valPtr0] == g.num && inits[valPtr0 + 1] == |g.vals|
    requires inits[valPtr0 + 2..valPtr0 + 2 + |g.vals|] == g.vals
    requires out0 == PrintedText(done0) && printed0 == |done0| <= MaxPrintedValues
    requires done0 + Repeat(g.vals, g.num) <= all
    ensures stopped ==> out == InitsText(all)
    ensures !stopped ==> valPtr == valPtr0 + 2 + |g.vals|
    ensures !stopped ==> numPrintedVals == |done0 + Repeat(g.vals, g.num)| <= MaxPrintedValues
    ensures !stopped ==> out == PrintedText(done0 + Repeat(g.vals, g.num))
  {
    var num := inits[valPtr0];
    var len := inits[valPtr0 + 1];
    var oldp := valPtr0 + 2;
    out, numPrintedVals, stopped := PrintCopies(inits, oldp, num, len, out0, printed0, done0, g.vals, all);
    valPtr := oldp + len;
  }

  /**
   * The middle loop of initsToString: `num` copies of the value group
   * `inits[oldp..oldp + len]`; `stopped` when ten values were printed and
   * one more was due, the text then cut with `...` (the early return).
   */
  method PrintCopies(inits: seq<int>, oldp: nat, num: int, len: nat, out0: string, printed0: nat,
                     ghost before: seq<int>, ghost vals: seq<int>, ghost all: seq<int>)
    returns (out: string, numPrintedVals: nat, stopped: bool)
    requires oldp + len <= |inits| && vals == inits[oldp..oldp + len]
    requires out0 == PrintedText(before) && printed0 == |before| <= MaxPrintedValues
    requires before + Repeat(vals, num) <= all
    ensures stopped ==> out == InitsText(all)
    ensures !stopped ==>
      out == PrintedText(before + Repeat(vals, num)) && numPrintedVals == |before + Repeat(vals, num)| <= MaxPrintedValues
  {
    out, numPrintedVals := out0, printed0;
    var n := 0;
    assert before + Repeat(vals, 0) == before;
    while n < num
      invariant 0 <= n <= (if num >= 0 then num else 0)
      invariant numPrintedVals == |before + Repeat(vals, n)| <= MaxPrintedValues
      invariant out == PrintedText(before + Repeat(vals, n))
    {
      CopyStep(before, vals, n, num, all);
      out, numPrintedVals, stopped := PrintGroup(inits, oldp, len, out, numPrintedVals, before + Repeat(vals, n), vals, all);
      if stopped {
        return;
      }
      n := n + 1;
    }
    RepeatDone(vals, n, num);
    stopped := false;
  }

  /**
   * The innermost loop of initsToString: the values of the group
   * `inits[oldp..oldp + len]` one by one, each after a comma unless it is
   * the first; `stopped` when ten values were printed and one more was due.
   */
  method PrintGroup(inits: seq<int>, oldp: nat, len: nat, out0: string, printed0: nat,
                    ghost before: seq<int>, ghost vals: seq<int>, ghost all: seq<int>)
    returns (out: string, numPrintedVals: nat, stopped: bool)
    requires oldp + len <= |inits| && vals == inits[oldp..oldp + len]
    requires out0 == PrintedText(before) && printed0 == |before| <= MaxPrintedValues
    requires before + vals <= all
    ensures stopped ==> out == InitsText(all)
    ensures !stopped ==> out == PrintedText(before + vals) && numPrintedVals == |before + vals| <= MaxPrintedValues
  {
    out, numPrintedVals := out0, printed0;
    var valPtr := oldp;
    ghost var done := before;
    assert before + vals[..0] == before;
    for l := 0 to len
      invariant valPtr == oldp + l
      invariant numPrintedVals == |before| + l <= MaxPrintedValues
      invariant done == before + vals[..l] && out == PrintedText(done)
    {
      SliceAt(inits, oldp, len, l);
      if numPrintedVals == MaxPrintedValues {
        ValueCut(before, vals, l, all);
        return out + "...", numPrintedVals, true;
      }
      ValuePrinted(before, vals, l);
      out := out + Piece(numPrintedVals, inits[valPtr]);
      valPtr := valPtr + 1;
      numPrintedVals := numPrintedVals + 1;
      done := before + vals[..l + 1];
    }
    assert vals[..len] == vals;
    stopped := false;
  }

  // --- initsToString as written: the value pointer after a group

  /**
   * The values initsToString prints from header position `p` on, for `k`
   * more groups, as the code is written: the value pointer moves past a
   * group's values only while copying them, so after a group with a
   * non-positive count (and some values) the next header is read from
   * that group's values. None: a read past the end of the list.
   */
  function ValuesAsWritten(inits: seq<int>, k: nat, p: int): Option<seq<int>>
    decreases k
  {
    if k == 0 then Some([])
    else if p < 0 || p + 2 > |inits| then None
    else
      var num := inits[p];
      var len := inits[p + 1];
      var copies := num > 0 && len > 0;
      if copies && p + 2 + len > |inits| then None
      else
        var vals := if copies then inits[p + 2..p + 2 + len] else [];
        var rest := ValuesAsWritten(inits, k - 1, if copies then p + 2 + len else p + 2);
        if rest.None? then None else Some(Repeat(vals, num) + rest.value)
  }

  /** The values of the groups from `i` on, expanded. */
  function ExpandedFrom(gs: seq<InitGroup>, i: nat): seq<int>
    requires i <= |gs|
    decreases |gs| - i
  {
    if i == |gs| then [] else Repeat(gs[i].vals, gs[i].num) + ExpandedFrom(gs, i + 1)
  }

  lemma {:induction false} ExpandedSplit(gs: seq<InitGroup>, i: nat)
    requires i <= |gs|
    ensures ExpandedUpTo(gs, i) + ExpandedFrom(gs, i) == Expanded(gs)
    decreases |gs| - i
  {
    if i == |gs| {
      ExpandedAll(gs);
    } else {
      ExpandedSplit(gs, i + 1);
      var before, here, after := ExpandedUpTo(gs, i), Repeat(gs[i].vals, gs[i].num), ExpandedFrom(gs, i + 1);
      assert ExpandedUpTo(gs, i + 1) == before + here;
      assert ExpandedFrom(gs, i) == here + after;
      assert before + (here + after) == (before + here) + after;
    }
  }

  /** A group the pointer slip cannot affect: it is copied at least once, or it has no values. */
  predicate Unaffected(g: InitGroup) {
    g.num > 0 || |g.vals| == 0
  }

  lemma {:induction false} AsWrittenFrom(inits: seq<int>, gs: seq<InitGroup>, i: nat)
    requires WellFormedInits(inits) && gs == GroupsOf(inits[1..]) && i <= |gs|
    requires forall j | i <= j < |gs| :: Unaffected(gs[j])
    ensures ValuesAsWritten(inits, |gs| - i, 1 + GroupStart(gs, i)) == Some(ExpandedFrom(gs, i))
    decreases |gs| - i
  {
    if i < |gs| {
      var p := 1 + GroupStart(gs, i);
      GroupRead(inits, gs, i, p);
      AsWrittenFrom(inits, gs, i + 1);
      if gs[i].num <= 0 {
        assert Repeat(gs[i].vals, gs[i].num) == [];
      }
    }
  }

  lemma AsWrittenAll(inits: seq<int>, gs: seq<InitGroup>)
    requires WellFormedInits(inits) && gs == GroupsOf(inits[1..])
    requires forall g | g in gs :: Unaffected(g)
    ensures ValuesAsWritten(inits, |gs|, 1) == Some(Expanded(gs))
  {
    GroupStartZero(gs);
    forall j | 0 <= j < |gs|
      ensures Unaffected(gs[j])
    {
      assert gs[j] in gs;
    }
    AsWrittenFrom(inits, gs, 0);
    ExpandedSplit(gs, 0);
    assert ExpandedUpTo(gs, 0) == [];
    assert [] + ExpandedFrom(gs, 0) == ExpandedFrom(gs, 0);
  }

  lemma GroupStartZero(gs: seq<InitGroup>)
    ensures GroupStart(gs, 0) == 0
  {
    assert gs[..0] == [];
  }

  /**
   * As written, initsToString prints the intended values whenever no group
   * has a non-positive count and some values.
   */
  lemma AsWrittenAgrees(inits: seq<int>)
    requires WellFormedInits(inits)
    requires forall g | g in GroupsOf(inits[1..]) :: Unaffected(g)
    ensures ValuesAsWritten(inits, inits[0], 1) == Some(Expanded(GroupsOf(inits[1..])))
  {
    var gs := GroupsOf(inits[1..]);
    AsWrittenAll(inits, gs);
  }

  /**
   * `0*[7], 1*[5]` (the encoding of `0 * 7, 5`): as written, the second
   * header is read from the first group's value, so `1` is printed seven
   * times instead of `5` once.
   */
  lemma AsWrittenRereadsValues()
    ensures WellFormedInits([2, 0, 1, 7, 1, 1, 5])
    ensures Expanded(GroupsOf([2, 0, 1, 7, 1, 1, 5][1..])) == [5]
    ensures ValuesAsWritten([2, 0, 1, 7, 1, 1, 5], 2, 1) == Some([1, 1, 1, 1, 1, 1, 1])
  {
    SampleGroups();
    SampleExpanded();
    SampleAsWritten();
  }

  lemma SampleGroups()
    ensures Tiles([0, 1, 7, 1, 1, 5]) && GroupsOf([0, 1, 7, 1, 1, 5]) == [InitGroup(0, [7]), InitGroup(1, [5])]
    ensures [2, 0, 1, 7, 1, 1, 5][1..] == [0, 1, 7, 1, 1, 5]
  {
    var e := [0, 1, 7, 1, 1, 5];
    assert e[2..3] == [7] && e[3..] == [1, 1, 5];
    assert [1, 1, 5][2..3] == [5] && [1, 1, 5][3..] == [];
    assert GroupsOf([1, 1, 5]) == [InitGroup(1, [5])];
  }

  lemma SampleExpanded()
    ensures Expanded([InitGroup(0, [7]), InitGroup(1, [5])]) == [5]
  {
    var gs := [InitGroup(0, [7]), InitGroup(1, [5])];
    assert gs[..1] == [InitGroup(0, [7])];
    assert [InitGroup(0, [7])][..0] == [];
    assert Repeat([5], 1) == Repeat([5], 0) + [5];
  }

  lemma SampleAsWritten()
    ensures ValuesAsWritten([2, 0, 1, 7, 1, 1, 5], 2, 1) == Some([1, 1, 1, 1, 1, 1, 1])
  {
    var inits := [2, 0, 1, 7, 1, 1, 5];
    assert ValuesAsWritten(inits, 0, 6) == Some([]);
    assert inits[5..6] == [1];
    RepeatOne(7);
    var ones: seq<int> := [1, 1, 1, 1, 1, 1, 1];
    assert seq(7, _ => 1) == ones;
    assert ValuesAsWritten(inits, 1, 3) == Some(Repeat([1], 7) + []);
    assert Repeat([1], 7) + [] == ones;
    AsWrittenSkips(inits, 2, 1);
  }

  /** A group copied no times leaves the pointer at its first value. */
  lemma AsWrittenSkips(inits: seq<int>, k: nat, p: int)
    requires k > 0 && 0 <= p && p + 2 <= |inits| && inits[p] <= 0
    ensures ValuesAsWritten(inits, k, p) == ValuesAsWritten(inits, k - 1, p + 2)
  {
    var rest := ValuesAsWritten(inits, k - 1, p + 2);
    if rest.Some? {
      assert Repeat([], inits[p]) == [];
      assert [] + rest.value == rest.value;
    }
  }

  lemma {:induction false} RepeatOne(n: nat)
    ensures Repeat([1], n) == seq(n, _ => 1)
  {
    if n > 0 {
      RepeatOne(n - 1);
    }
  }
}
