/**
  Variables behind their record. A level's addresses are never given back, so a procedure may
  find its variables some cells behind the record its INC makes room for. A procedure that makes
  no call can use them there all the same: it is as if its record were that much longer.
 */
module Overhang {
  import opened Common
  import opened Machine
  import opened Syntax
  import opened Symbols
  import opened Semantics
  import opened Records
  import opened StmtCorrect
  import opened Emission
  import opened Programs
  import opened Standard
  import opened Scope
  import opened Naming
  import opened Uses

  /** How far behind the end of its record each procedure's variables reach. */
  type Pads = seq<nat>

  function NoPads(n: nat): Pads {
    seq(n, _ => 0)
  }

  /** Only procedures that make no call have variables behind their record. */
  predicate Leafy(prog: Prog, pads: Pads) {
    |pads| == |prog| && forall i :: 0 <= i < |prog| && pads[i] > 0 ==> i > 0 && NoCall(prog[i].body)
  }

  /** The same program with longer records. */
  function Widen(prog: Prog, pads: Pads): (r: Prog)
    requires |pads| == |prog|
    ensures |r| == |prog|
  {
    seq(|prog|, i requires 0 <= i < |prog| => prog[i].(vars := prog[i].vars + pads[i]))
  }

  /** A procedure's own variables `pad` cells further up. */
  function ShiftBinding(b: Binding, pad: nat): Binding {
    if b.kind == VAR && b.hops == 0 then b.(addr := b.addr + pad) else b
  }

  function ShiftScope(scope: Scoping, pad: nat): Scoping {
    map x | x in scope :: ShiftBinding(scope[x], pad)
  }

  function PaddedProc(p: Proc, pad: nat): Proc
    requires p.env.Lexical?
  {
    p.(vars := p.vars + pad, env := Lexical(ShiftScope(p.env.scope, pad)))
  }

  /** The same program with longer records, the variables of each at its end. */
  function Padded(prog: Prog, pads: Pads): (r: Prog)
    requires AllLexical(prog) && |pads| == |prog|
    ensures |r| == |prog|
  {
    seq(|prog|, i requires 0 <= i < |prog| => PaddedProc(prog[i], pads[i]))
  }

  lemma PaddedNone(prog: Prog)
    requires AllLexical(prog)
    ensures Padded(prog, NoPads(|prog|)) == prog && Leafy(prog, NoPads(|prog|))
    ensures Widen(prog, NoPads(|prog|)) == prog
  {
    forall i | 0 <= i < |prog|
      ensures PaddedProc(prog[i], 0) == prog[i]
    {
      assert ShiftScope(prog[i].env.scope, 0) == prog[i].env.scope;
    }
  }

  lemma WidenNone(prog: Prog)
    ensures Widen(prog, NoPads(|prog|)) == prog
  {
  }

  // ---------- what the table has to answer ----------

  lemma LexLexical(b: Block)
    requires LevelsFit(b.decls, 0)
    ensures |Elaborate(b)| == |LexProgram(b)| > 0 && AllLexical(LexProgram(b))
  {
    hide Elaborate, AlikeProc;
    ProgramsAlike(b);
    forall i | 0 <= i < |LexProgram(b)| ensures LexProgram(b)[i].env.Lexical? {
      LexicalAt(Elaborate(b)[i], LexProgram(b)[i]);
    }
  }

  lemma LexicalAt(p: Proc, q: Proc)
    requires AlikeProc(p, q)
    ensures q.env.Lexical?
  {
  }

  /**
    At every procedure, for every name its body uses: among the entries of the name's bucket that
    are no deeper, the deepest, and of these the first, is one that means what the name means in
    lexical scope, and the first entry of the bucket is no deeper. The procedure's own variables
    may be further up than their slots, all as far as `pads` says.
   */
  ghost predicate Clear(b: Block, pads: Pads) {
    var prog, lex := Elaborate(b), LexProgram(b);
    && |prog| == |lex| == |pads| && AllLexical(lex)
    && forall i :: 0 <= i < |lex| ==> ClearProc(prog[i], UsedProc(PaddedProc(lex[i], pads[i])))
  }

  lemma AlikeUsed(p: Proc, q: Proc, pad: nat)
    requires AlikeProc(p, q)
    ensures AlikeProc(p.(vars := p.vars + pad), UsedProc(PaddedProc(q, pad)))
  {
  }

  lemma ClearVars(p: Proc, q: Proc, vars: nat)
    ensures ClearProc(p.(vars := vars), q) == ClearProc(p, q)
  {
  }

  /**
    The table gives every name that a body uses, where it uses it, its lexical meaning, exactly
    when the tree is clear.
   */
  lemma ProgramsAgree(b: Block, pads: Pads)
    requires LevelsFit(b.decls, 0) && |pads| == |LexProgram(b)|
    ensures |Elaborate(b)| == |pads| && AllLexical(LexProgram(b)) && AllLexical(Padded(LexProgram(b), pads))
    ensures SameProcs(Widen(Elaborate(b), pads), Used(Padded(LexProgram(b), pads))) <==> Clear(b, pads)
  {
    hide Elaborate, LexProgram, AlikeProc, ClearProc, SameProcs, UsedProc;
    LexLexical(b);
    ProgramsAlike(b);
    var prog, lex := Elaborate(b), LexProgram(b);
    var wide, used := Widen(prog, pads), Used(Padded(lex, pads));
    forall i | 0 <= i < |lex|
      ensures AlikeProc(wide[i], used[i]) && ClearProc(wide[i], used[i]) == ClearProc(prog[i], used[i])
    {
      AlikeUsed(prog[i], lex[i], pads[i]);
      ClearVars(prog[i], used[i], prog[i].vars + pads[i]);
    }
    AlikeResolve(wide, used);
  }

  /** In body `i` the table gives the used name `x` its meaning in lexical scope, or that `pads[i]` cells further up. */
  ghost predicate ReadsName(b: Block, pads: Pads, i: nat, x: string) {
    var prog, lex := Elaborate(b), LexProgram(b);
    && i < |prog| == |lex| == |pads| && lex[i].env.Lexical?
    && (x in StmtNames(lex[i].body) && x in lex[i].env.scope ==>
          prog[i].env.Find(x) == Some(ShiftBinding(lex[i].env.scope[x], pads[i])))
  }

  /** The same name by name: a tree is clear exactly when each name is found as meant where it is used. */
  lemma ClearNames(b: Block, pads: Pads)
    requires LevelsFit(b.decls, 0) && |pads| == |LexProgram(b)|
    ensures Clear(b, pads) <==> forall i, x :: 0 <= i < |pads| ==> ReadsName(b, pads, i, x)
  {
    hide Elaborate, LexProgram, ClearProc, Resolves;
    LexLexical(b);
    ProgramsAlike(b);
    var prog, lex := Elaborate(b), LexProgram(b);
    forall i | 0 <= i < |lex|
      ensures ClearProc(prog[i], UsedProc(PaddedProc(lex[i], pads[i]))) <==> forall x :: ReadsName(b, pads, i, x)
    {
      assert AlikeProc(prog[i], lex[i]);
      ClearUsed(prog[i], lex[i], pads[i]);
      forall x
        ensures ReadsName(b, pads, i, x) <==> ReadsUsed(prog[i], lex[i], pads[i], x)
      {
      }
    }
  }

  predicate ReadsUsed(p: Proc, q: Proc, pad: nat, x: string)
    requires q.env.Lexical?
  {
    x in StmtNames(q.body) && x in q.env.scope ==> p.env.Find(x) == Some(ShiftBinding(q.env.scope[x], pad))
  }

  /** The same of two given programs. */
  lemma ClearRead(b: Block, pads: Pads, prog: Prog, lex: Prog)
    requires LevelsFit(b.decls, 0) && Elaborate(b) == prog && LexProgram(b) == lex && |prog| == |lex| == |pads|
    requires forall i :: 0 <= i < |lex| ==> lex[i].env.Lexical?
    requires forall i, x :: 0 <= i < |lex| ==> ReadsUsed(prog[i], lex[i], pads[i], x)
    ensures Clear(b, pads)
  {
    hide Elaborate, LexProgram, Clear;
    ClearNames(b, pads);
    forall i, x | 0 <= i < |pads|
      ensures ReadsName(b, pads, i, x)
    {
      assert ReadsUsed(prog[i], lex[i], pads[i], x);
    }
  }

  lemma ClearUsed(p: Proc, q: Proc, pad: nat)
    requires AlikeProc(p, q)
    ensures ClearProc(p, UsedProc(PaddedProc(q, pad))) <==> forall x :: ReadsUsed(p, q, pad, x)
  {
    hide Resolves;
    AlikeUsed(p, q, pad);
    var used := UsedProc(PaddedProc(q, pad));
    forall x | x in used.env.scope
      ensures p.env.Find(x) == Some(used.env.scope[x]) <==> Resolves(p.env.table, x, p.env.level, used.env.scope[x])
    {
      ResolvesExact(p.env.table, x, p.env.level, used.env.scope[x]);
    }
    assert used.body == q.body;
    assert forall x :: x in used.env.scope <==> x in StmtNames(q.body) && x in q.env.scope;
    if forall x :: ReadsUsed(p, q, pad, x) {
      forall x | x in used.env.scope ensures Resolves(p.env.table, x, p.env.level, used.env.scope[x]) {
        assert ReadsUsed(p, q, pad, x);
      }
    }
  }

  /** It is more than enough that every name in scope is resolved, used or not. */
  lemma ScopesClear(b: Block)
    requires LevelsFit(b.decls, 0) && ClearScopes(b)
    ensures Clear(b, NoPads(|LexProgram(b)|))
  {
    hide Elaborate, LexProgram, Resolves;
    LexLexical(b);
    var lex := LexProgram(b);
    forall i | 0 <= i < |lex|
      ensures ClearProc(Elaborate(b)[i], UsedProc(PaddedProc(lex[i], 0)))
    {
      assert ShiftScope(lex[i].env.scope, 0) == lex[i].env.scope;
    }
  }

  // ---------- longer records mean the same ----------

  /** Names denote things here or further out, and no variable of the procedure lies in a header. */
  predicate NiceScope(scope: Scoping) {
    forall x :: x in scope ==>
      scope[x].hops >= 0 && (scope[x].kind == VAR && scope[x].hops == 0 ==> scope[x].addr >= HEADER)
  }

  ghost predicate Nice(prog: Prog) {
    AllLexical(prog) && forall i :: 0 <= i < |prog| ==> NiceScope(prog[i].env.scope)
  }

  function PadFrame(f: Frame, pad: nat): Frame {
    f.(vars := seq(pad, _ => None) + f.vars)
  }

  function PadFrames(frames: seq<Frame>, pad: nat): (r: seq<Frame>)
    requires frames != []
    ensures |r| == |frames|
  {
    frames[Top(frames) := PadFrame(frames[Top(frames)], pad)]
  }

  function PadStore(st: Store, pad: nat): Store
    requires st.frames != []
  {
    st.(frames := PadFrames(st.frames, pad))
  }

  function PadOutcome(o: Outcome, pad: nat): Outcome {
    match o
    case Done(st) => if st.frames == [] then o else Done(PadStore(st, pad))
    case Returned(st) => if st.frames == [] then o else Returned(PadStore(st, pad))
    case _ => o
  }

  lemma PadNothing(st: Store)
    requires st.frames != []
    ensures PadStore(st, 0) == st
  {
    assert PadFrame(st.frames[Top(st.frames)], 0) == st.frames[Top(st.frames)];
  }

  lemma {:induction false} HopLinks(a: seq<Frame>, b: seq<Frame>, i: nat, k: int)
    requires |a| == |b| && forall j :: 0 <= j < |a| ==> a[j].link == b[j].link
    ensures Hop(a, i, k) == Hop(b, i, k)
    decreases k
  {
    if k > 0 && 0 < i < |a| {
      HopLinks(a, b, a[i].link, k - 1);
    }
  }

  lemma {:induction false} HopDown(frames: seq<Frame>, i: nat, k: int)
    requires LinksDown(frames) && i < |frames| && Hop(frames, i, k).Some?
    ensures Hop(frames, i, k).value <= i && (k > 0 ==> Hop(frames, i, k).value < i)
    decreases k
  {
    if k > 0 {
      HopDown(frames, frames[i].link, k - 1);
    }
  }

  /** Where a shifted binding leads from the padded record: to the same variable. */
  lemma LocatePadded(frames: seq<Frame>, pad: nat, hops: int, addr: int)
    requires frames != [] && LinksDown(frames) && hops >= 0
    ensures hops > 0 ==>
      var l := Locate(frames, hops, addr);
      Locate(PadFrames(frames, pad), hops, addr) == l && (l.Some? ==> l.value.0 < Top(frames))
    ensures hops == 0 && addr >= HEADER ==>
      var l := Locate(frames, 0, addr);
      && Locate(PadFrames(frames, pad), 0, addr + pad)
         == (if l.None? then None else Some((l.value.0, l.value.1 + pad)))
      && (l.Some? ==> l.value.0 == Top(frames))
  {
    HopLinks(frames, PadFrames(frames, pad), Top(frames), hops);
    if Hop(frames, Top(frames), hops).Some? {
      HopDown(frames, Top(frames), hops);
    }
  }

  lemma PadReads(scope: Scoping, frames: seq<Frame>, pad: nat)
    requires frames != [] && LinksDown(frames) && NiceScope(scope)
    ensures Reads(Lexical(ShiftScope(scope, pad)), PadFrames(frames, pad), Lexical(scope), frames)
  {
    hide Locate;
    forall x | x in scope
      ensures ReadsAs(ShiftBinding(scope[x], pad), PadFrames(frames, pad), scope[x], frames)
    {
      LocatePadded(frames, pad, scope[x].hops, scope[x].addr);
    }
  }

  lemma PadSet(frames: seq<Frame>, pad: nat, j: nat, k: nat, v: int)
    requires frames != [] && j < |frames| && k < |frames[j].vars|
    ensures j < Top(frames) ==> SetVar(PadFrames(frames, pad), j, k, v) == PadFrames(SetVar(frames, j, k, v), pad)
    ensures j == Top(frames) ==>
      && k + pad < |PadFrames(frames, pad)[j].vars|
      && SetVar(PadFrames(frames, pad), j, k + pad, v) == PadFrames(SetVar(frames, j, k, v), pad)
  {
    if j == Top(frames) {
      var f := frames[j];
      assert (seq(pad, _ => None) + f.vars)[k + pad := Some(v)] == seq(pad, _ => None) + f.vars[k := Some(v)];
    }
  }

  lemma PadStore1(scope: Scoping, x: string, v: int, st: Store, pad: nat)
    requires st.frames != [] && LinksDown(st.frames) && NiceScope(scope)
    ensures Store1(x, v, Lexical(ShiftScope(scope, pad)), PadStore(st, pad))
         == PadOutcome(Store1(x, v, Lexical(scope), st), pad)
  {
    if x in scope && scope[x].kind == VAR {
      var b := scope[x];
      LocatePadded(st.frames, pad, b.hops, b.addr);
      hide Locate;
      if Locate(st.frames, b.hops, b.addr).Some? {
        var (j, k) := Locate(st.frames, b.hops, b.addr).value;
        LocatedIn(st.frames, b.hops, b.addr);
        PadSet(st.frames, pad, j, k, v);
      }
    }
  }

  lemma LocatedIn(frames: seq<Frame>, hops: int, addr: int)
    requires Locate(frames, hops, addr).Some?
    ensures var (j, k) := Locate(frames, hops, addr).value; j < |frames| && k < |frames[j].vars|
  {
  }

  /** A call from a procedure without variables behind its record enters the padded record of the callee. */
  lemma PadEnter(prog: Prog, pads: Pads, x: string, scope: Scoping, st: Store)
    requires AllLexical(prog) && Leafy(prog, pads) && st.frames != [] && LinksDown(st.frames)
    ensures var o := Enter(prog, STANDARD, x, Lexical(scope), st);
            var o' := Enter(Padded(prog, pads), STANDARD, x, Lexical(ShiftScope(scope, 0)), st);
            && (!o.Done? ==> o' == o)
            && (o.Done? ==>
                  && o.st.frames != [] && LinksDown(o.st.frames) && 0 < Running(o.st.frames) < |prog|
                  && Running(PadStore(o.st, pads[Running(o.st.frames)]).frames) == Running(o.st.frames)
                  && o' == Done(PadStore(o.st, pads[Running(o.st.frames)])))
  {
    assert ShiftScope(scope, 0) == scope;
    var o := Enter(prog, STANDARD, x, Lexical(scope), st);
    if o.Done? {
      var b := scope[x];
      var link := Hop(st.frames, Top(st.frames), b.hops).value;
      HopDown(st.frames, Top(st.frames), b.hops);
      var f := NewFrame(b.addr, link, prog[b.addr].vars);
      var pad := pads[b.addr];
      assert NewFrame(b.addr, link, prog[b.addr].vars + pad).vars == PadFrame(f, pad).vars;
      assert PadFrames(st.frames + [f], pad) == st.frames + [PadFrame(f, pad)];
    }
  }

  /** Dropping the top record drops its padding. */
  lemma PadLeave(o: Outcome, pad: nat, returning: bool)
    requires o.Done? || o.Returned? ==> o.st.frames != []
    ensures Leave(STANDARD, PadOutcome(o, pad), returning) == Leave(STANDARD, o, returning)
  {
    if o.Done? || o.Returned? {
      var n := |o.st.frames| - 1;
      assert PadFrames(o.st.frames, pad)[..n] == o.st.frames[..n];
    }
  }

  lemma CarriedLinks(st: Store, o: Outcome)
    requires Carried(st, o) && LinksDown(st.frames) && st.frames != [] && (o.Done? || o.Returned?)
    ensures LinksDown(o.st.frames) && o.st.frames != []
  {
  }

  /** Everything the induction asks of a place in the program. */
  ghost predicate PadPlace(prog: Prog, pads: Pads, id: nat, st: Store) {
    && Nice(prog) && WellTyped(prog) && Leafy(prog, pads) && id < |prog|
    && st.frames != [] && LinksDown(st.frames)
  }

  lemma PlaceAfter(prog: Prog, pads: Pads, id: nat, st: Store, o: Outcome)
    requires PadPlace(prog, pads, id, st) && Carried(st, o) && (o.Done? || o.Returned?)
    ensures PadPlace(prog, pads, id, o.st)
  {
    CarriedLinks(st, o);
  }

  /** What a place in the program gives for the conditions and expressions there. */
  lemma PlaceReads(prog: Prog, pads: Pads, id: nat, st: Store)
    requires PadPlace(prog, pads, id, st)
    ensures id < |prog| == |pads| && st.frames != [] && LinksDown(st.frames)
    ensures AllLexical(prog) && prog[id].env.Lexical?
    ensures Padded(prog, pads)[id].env == Lexical(ShiftScope(prog[id].env.scope, pads[id]))
    ensures NiceScope(prog[id].env.scope)
    ensures Reads(Padded(prog, pads)[id].env, PadStore(st, pads[id]).frames, prog[id].env, st.frames)
    ensures GoodStmt(prog[id].body, prog[id].env)
  {
    PadReads(prog[id].env.scope, st.frames, pads[id]);
  }

  lemma {:induction false} ExecPadded(prog: Prog, pads: Pads, s: Stmt, id: nat, st: Store, fuel: nat)
    requires PadPlace(prog, pads, id, st) && GoodStmt(s, prog[id].env) && (pads[id] == 0 || NoCall(s))
    ensures |pads| == |prog| && AllLexical(prog)
    ensures Exec(Padded(prog, pads), STANDARD, s, id, PadStore(st, pads[id]), fuel)
         == PadOutcome(Exec(prog, STANDARD, s, id, st, fuel), pads[id])
    decreases fuel, s, 1
  {
    hide PadPlace, Padded, PadOutcome, PadFrames, Reads, Enter, Leave, Store1, NiceScope, LinksDown, EvalExpr,
         EvalCond, WriteValue;
    PlaceReads(prog, pads, id, st);
    PadShape(pads[id]);
    var p, env, pad := Padded(prog, pads), prog[id].env, pads[id];
    var st', fr := PadStore(st, pad), st.frames;
    match s
    case Empty =>
    case Assign(x, e) =>
      ExprSame(e, p[id].env, st'.frames, env, fr);
      if EvalExpr(e, env, fr).Val? { PadStore1(env.scope, x, EvalExpr(e, env, fr).v, st, pad); }
    case Call(x) => CallPadded(prog, pads, x, id, st, fuel);
    case Begin(first, rest) =>
      ExecPadded(prog, pads, first, id, st, fuel);
      var o := Exec(prog, STANDARD, first, id, st, fuel);
      ExecCarries(prog, STANDARD, first, id, st, fuel);
      PadDone(o, pad);
      if o.Done? {
        PlaceAfter(prog, pads, id, st, o);
        ExecAllPadded(prog, pads, rest, id, o.st, fuel);
      }
    case If(c, t) =>
      CondSame(c, p[id].env, st'.frames, env, fr);
      ExecPadded(prog, pads, t, id, st, fuel);
    case IfElse(c, t, e) =>
      CondSame(c, p[id].env, st'.frames, env, fr);
      ExecPadded(prog, pads, t, id, st, fuel);
      ExecPadded(prog, pads, e, id, st, fuel);
    case While(c, b) =>
      CondSame(c, p[id].env, st'.frames, env, fr);
      ExecPadded(prog, pads, b, id, st, fuel);
      var o := Exec(prog, STANDARD, b, id, st, fuel);
      ExecCarries(prog, STANDARD, b, id, st, fuel);
      PadDone(o, pad);
      if o.Done? && fuel > 0 {
        PlaceAfter(prog, pads, id, st, o);
        ExecPadded(prog, pads, s, id, o.st, fuel - 1);
      }
    case Read(x) =>
      if st.input != [] { ReadPadded(env.scope, x, st, pad); }
    case Write(x) => WritePadded(prog, pads, x, id, st);
  }

  /** What padding does to each kind of outcome. */
  lemma PadShape(pad: nat)
    ensures forall f, out :: PadOutcome(Faulted(f, out), pad) == Faulted(f, out)
    ensures PadOutcome(Timeout, pad) == Timeout
    ensures forall st: Store :: st.frames != [] ==> PadOutcome(Done(st), pad) == Done(PadStore(st, pad))
  {
  }

  lemma PadDone(o: Outcome, pad: nat)
    ensures PadOutcome(o, pad).Done? == o.Done?
    ensures !o.Done? && !o.Returned? ==> PadOutcome(o, pad) == o
    ensures o.Done? && o.st.frames != [] ==> PadOutcome(o, pad).st == PadStore(o.st, pad)
  {
  }

  lemma ReadPadded(scope: Scoping, x: string, st: Store, pad: nat)
    requires st.frames != [] && LinksDown(st.frames) && NiceScope(scope) && st.input != []
    ensures Store1(x, st.input[0], Lexical(ShiftScope(scope, pad)), PadStore(st, pad).(input := st.input[1..]))
         == PadOutcome(Store1(x, st.input[0], Lexical(scope), st.(input := st.input[1..])), pad)
  {
    PadStore1(scope, x, st.input[0], st.(input := st.input[1..]), pad);
  }

  lemma WritePadded(prog: Prog, pads: Pads, x: string, id: nat, st: Store)
    requires PadPlace(prog, pads, id, st) && GoodStmt(Write(x), prog[id].env)
    ensures |pads| == |prog| && AllLexical(prog)
    ensures WriteValue(STANDARD, x, Padded(prog, pads)[id].env, PadStore(st, pads[id]))
         == WriteValue(STANDARD, x, prog[id].env, st)
  {
    hide PadPlace, Padded, ReadVar;
    PlaceReads(prog, pads, id, st);
  }

  lemma {:induction false} CallPadded(prog: Prog, pads: Pads, x: string, id: nat, st: Store, fuel: nat)
    requires PadPlace(prog, pads, id, st) && pads[id] == 0
    ensures |pads| == |prog| && AllLexical(prog)
    ensures Exec(Padded(prog, pads), STANDARD, Call(x), id, PadStore(st, 0), fuel)
         == PadOutcome(Exec(prog, STANDARD, Call(x), id, st, fuel), 0)
    decreases fuel, Call(x), 0
  {
    hide Padded, PadOutcome, Reads, Enter, Leave, NiceScope, PadFrames;
    PlaceReads(prog, pads, id, st);
    PadNothing(st);
    PadEnter(prog, pads, x, prog[id].env.scope, st);
    var o := Enter(prog, STANDARD, x, prog[id].env, st);
    if o.Done? && fuel > 0 {
      var callee := Running(o.st.frames);
      var pad, body := pads[callee], prog[callee].body;
      PlaceReads(prog, pads, callee, o.st);
      ExecPadded(prog, pads, body, callee, o.st, fuel - 1);
      ReturningSame(body, Padded(prog, pads)[callee].env, PadStore(o.st, pad).frames, prog[callee].env, o.st.frames);
      var ob := Exec(prog, STANDARD, body, callee, o.st, fuel - 1);
      ExecCarries(prog, STANDARD, body, callee, o.st, fuel - 1);
      PadLeave(ob, pad, Returning(body, prog[callee].env, o.st.frames));
      PaddedBody(prog, pads, callee);
    }
    PadZero(Exec(prog, STANDARD, Call(x), id, st, fuel));
  }

  lemma PaddedBody(prog: Prog, pads: Pads, i: nat)
    requires AllLexical(prog) && |pads| == |prog| && i < |prog|
    ensures Padded(prog, pads)[i].body == prog[i].body
  {
  }

  lemma PadZero(o: Outcome)
    ensures PadOutcome(o, 0) == o
  {
    if (o.Done? || o.Returned?) && o.st.frames != [] {
      PadNothing(o.st);
    }
  }

  lemma {:induction false} ExecAllPadded(prog: Prog, pads: Pads, ss: Stmts, id: nat, st: Store, fuel: nat)
    requires PadPlace(prog, pads, id, st) && GoodStmts(ss, prog[id].env) && (pads[id] == 0 || NoCallAll(ss))
    ensures |pads| == |prog| && AllLexical(prog)
    ensures ExecAll(Padded(prog, pads), STANDARD, ss, id, PadStore(st, pads[id]), fuel)
         == PadOutcome(ExecAll(prog, STANDARD, ss, id, st, fuel), pads[id])
    decreases fuel, ss, 1
  {
    PlaceReads(prog, pads, id, st);
    hide PadPlace, Padded, PadOutcome, Reads, Exec, GoodStmt, NiceScope;
    PadShape(pads[id]);
    if ss.MoreStmts? {
      ExecPadded(prog, pads, ss.stmt, id, st, fuel);
      var o := Exec(prog, STANDARD, ss.stmt, id, st, fuel);
      ExecCarries(prog, STANDARD, ss.stmt, id, st, fuel);
      PadDone(o, pads[id]);
      if o.Done? {
        PlaceAfter(prog, pads, id, st, o);
        ExecAllPadded(prog, pads, ss.next, id, o.st, fuel);
      }
    }
  }

  /** Longer records, of procedures that make no call, leave a program's PL/0 meaning as it is. */
  lemma PaddedMeaning(prog: Prog, pads: Pads, input: seq<int>, fuel: nat)
    requires Nice(prog) && WellTyped(prog) && Leafy(prog, pads) && prog != []
    ensures ExecProgram(Padded(prog, pads), STANDARD, input, fuel) == ExecProgram(prog, STANDARD, input, fuel)
  {
    var st := InitStore(prog, input);
    PadNothing(st);
    PaddedBody(prog, pads, 0);
    assert InitStore(Padded(prog, pads), input) == st;
    FirstGood(prog);
    ExecPadded(prog, pads, prog[0].body, 0, st, fuel);
    PadZero(Exec(prog, STANDARD, prog[0].body, 0, st, fuel));
  }

  lemma FirstGood(prog: Prog)
    requires WellTyped(prog) && prog != []
    ensures GoodStmt(prog[0].body, prog[0].env)
  {
  }

  // ---------- what else it leaves as it is ----------

  /** Shifting variables changes no name's kind or value. */
  lemma ShiftReads(scope: Scoping, pad: nat)
    ensures Reads(Lexical(ShiftScope(scope, pad)), [], Lexical(scope), [])
  {
  }

  lemma TypedPadded(prog: Prog, pads: Pads)
    requires AllLexical(prog) && |pads| == |prog| && WellTyped(prog)
    ensures WellTyped(Padded(prog, pads)) && AllLexical(Padded(prog, pads))
  {
    hide GoodStmt, Reads;
    forall i | 0 <= i < |prog| ensures GoodStmt(prog[i].body, Padded(prog, pads)[i].env) {
      ShiftReads(prog[i].env.scope, pads[i]);
      StmtGood(prog[i].body, Padded(prog, pads)[i].env, prog[i].env);
    }
  }

  lemma {:induction false} NoConstShift(s: Stmt, scope: Scoping, pad: nat)
    requires NoConstWrite(s, Lexical(scope))
    ensures NoConstWrite(s, Lexical(ShiftScope(scope, pad)))
    decreases s
  {
    match s
    case Begin(first, rest) => NoConstShift(first, scope, pad); NoConstShiftAll(rest, scope, pad);
    case If(_, t) => NoConstShift(t, scope, pad);
    case IfElse(_, t, e) => NoConstShift(t, scope, pad); NoConstShift(e, scope, pad);
    case While(_, b) => NoConstShift(b, scope, pad);
    case _ =>
  }

  lemma {:induction false} NoConstShiftAll(ss: Stmts, scope: Scoping, pad: nat)
    requires NoConstWriteAll(ss, Lexical(scope))
    ensures NoConstWriteAll(ss, Lexical(ShiftScope(scope, pad)))
    decreases ss
  {
    if ss.MoreStmts? {
      NoConstShift(ss.stmt, scope, pad);
      NoConstShiftAll(ss.next, scope, pad);
    }
  }

  lemma TailPadded(prog: Prog, pads: Pads)
    requires AllLexical(prog) && |pads| == |prog| && TailProgram(prog)
    ensures TailProgram(Padded(prog, pads))
  {
    hide NoConstWrite, Tail;
    forall i | 0 <= i < |prog| ensures NoConstWrite(prog[i].body, Padded(prog, pads)[i].env) {
      NoConstShift(prog[i].body, prog[i].env.scope, pads[i]);
    }
  }
}
